/** The depth-first search over a pruned graph. */
module PathSearch {
  import opened Pathfinder

  datatype Search = Search(adj: Graph, target: Token, cap: nat, maxHops: nat)

  function Last(path: Path): Token
    requires path != []
  {
    path[|path| - 1]
  }

  /** One frame: the chains found before it, and those below `path`. */
  function Walk(s: Search, found: seq<Path>, path: Path): seq<Path>
    requires 0 < |path| <= s.maxHops + 1
    decreases s.maxHops + 1 - |path|, 1, 0
  {
    if s.cap <= |found| || s.maxHops <= |path| - 1 then found
    else Follow(s, found, path, Edges(s.adj, Last(path)))
  }

  /** The frame's loop over the edges it has left. */
  function Follow(s: Search, found: seq<Path>, path: Path, edges: seq<Edge>): seq<Path>
    requires 0 < |path| <= s.maxHops
    decreases s.maxHops + 1 - |path|, 0, |edges|
  {
    if edges == [] then found
    else
      var next := Other(edges[0], Last(path));
      if next in path then Follow(s, found, path, edges[1..])
      else if next == s.target then
        var found' := found + [path + [next]];
        if s.cap <= |found'| then found' else Follow(s, found', path, edges[1..])
      else Follow(s, Walk(s, found, path + [next]), path, edges[1..])
  }

  function Longer(found: seq<Path>): seq<Path> {
    if found == [] then [] else (if 2 < |found[0]| then [found[0]] else []) + Longer(found[1..])
  }

  /** What candidatePaths reports over a given graph. */
  function Candidates(s: Search, source: Token): seq<Path> {
    Longer(Walk(s, [], [source]))
  }

  class Finder {
    const s: Search
    var results: seq<Path>

    constructor (s: Search)
      ensures this.s == s && results == []
    {
      this.s, results := s, [];
    }

    method Visit(node: Token, path: Path)
      requires 0 < |path| <= s.maxHops + 1 && node == Last(path)
      modifies this`results
      ensures results == Walk(s, old(results), path)
      decreases s.maxHops + 1 - |path|
    {
      if s.cap <= |results| { return; }
      if s.maxHops <= |path| - 1 { return; }
      var edges := Edges(s.adj, node);
      for i := 0 to |edges|
        invariant Follow(s, results, path, edges[i..]) == Follow(s, old(results), path, edges)
        modifies this`results
      {
        assert edges[i..][1..] == edges[i + 1..];
        var next := Other(edges[i], node);
        if next in path { continue; }
        if next == s.target {
          results := results + [path + [next]];
          if s.cap <= |results| { return; }
          continue;
        }
        Visit(next, path + [next]);
      }
    }
  }

  lemma LongerNext(raw: seq<Path>, i: nat)
    requires i < |raw|
    ensures Longer(raw[i..]) == (if 2 < |raw[i]| then [raw[i]] else []) + Longer(raw[i + 1..])
  {
    assert raw[i..][1..] == raw[i + 1..];
  }

  lemma EmptyLonger()
    ensures Longer([]) == []
  {
  }

  method KeepLonger(raw: seq<Path>) returns (paths: seq<Path>)
    ensures paths == Longer(raw)
  {
    paths := [];
    assert raw[0..] == raw;
    EmptyLonger();
    hide Longer;
    for i := 0 to |raw|
      invariant paths + Longer(raw[i..]) == Longer(raw)
    {
      LongerNext(raw, i);
      if 2 < |raw[i]| {
        paths := paths + [raw[i]];
      }
    }
  }

  /** candidatePaths; also returns the graph it searched. */
  method CandidatePaths(edges: seq<Edge>, branchCap: nat, source: Token, target: Token, cap: nat, maxHops: nat)
    returns (adj: Graph, paths: seq<Path>)
    ensures forall t :: Edges(adj, t) == Pruned(Incident(edges, t), branchCap)
    ensures paths == Candidates(Search(adj, target, cap, maxHops), source)
  {
    hide Longer, Walk, Edges, Pruned, Incident;
    adj := Adjacency(edges, branchCap);
    var finder := new Finder(Search(adj, target, cap, maxHops));
    finder.Visit(source, [source]);
    paths := KeepLonger(finder.results);
  }

  // ─── What a path is ─────────────────────────────────

  predicate Leads(edges: seq<Edge>, node: Token, next: Token) {
    edges != [] && (Other(edges[0], node) == next || Leads(edges[1..], node, next))
  }

  /** The pruned graph has an edge from one token to the other. */
  predicate Joined(adj: Graph, node: Token, next: Token) {
    Leads(Edges(adj, node), node, next)
  }

  predicate NoRepeats(p: Path) {
    forall i, j :: 0 <= i < j < |p| ==> p[i] != p[j]
  }

  /** A simple path of at most maxHops edges of the pruned graph, from source to target. */
  predicate SimplePath(s: Search, source: Token, p: Path) {
    && 2 <= |p| <= s.maxHops + 1 && p[0] == source && Last(p) == s.target && NoRepeats(p)
    && forall i :: 0 < i < |p| ==> Joined(s.adj, p[i - 1], p[i])
  }

  /** `rest` leads on from a frame's path to the target. */
  predicate Onward(s: Search, path: Path, rest: Path)
    requires path != []
    decreases |rest|
  {
    && rest != [] && |path| <= s.maxHops && rest[0] !in path && Joined(s.adj, Last(path), rest[0])
    && if |rest| == 1 then rest[0] == s.target else rest[0] != s.target && Onward(s, path + [rest[0]], rest[1..])
  }

  predicate Extends(s: Search, path: Path, p: Path)
    requires path != []
  {
    |path| < |p| && p[..|path|] == path && Onward(s, path, p[|path|..])
  }

  lemma {:induction false} OnwardIsSimple(s: Search, path: Path, rest: Path)
    requires path != [] && NoRepeats(path)
    requires forall i :: 0 < i < |path| ==> Joined(s.adj, path[i - 1], path[i])
    requires Onward(s, path, rest)
    ensures SimplePath(s, path[0], path + rest)
    decreases |rest|
  {
    hide Joined;
    var longer := path + [rest[0]];
    assert NoRepeats(longer);
    assert forall i :: 0 < i < |longer| ==> Joined(s.adj, longer[i - 1], longer[i]);
    if |rest| == 1 {
      assert path + rest == longer;
    } else {
      OnwardIsSimple(s, longer, rest[1..]);
      assert longer + rest[1..] == path + rest;
    }
  }

  lemma {:induction false} SimpleIsOnward(s: Search, p: Path, n: nat)
    requires 0 < n < |p| && SimplePath(s, p[0], p)
    ensures Onward(s, p[..n], p[n..])
    decreases |p| - n
  {
    hide Joined;
    assert p[n - 1] == Last(p[..n]) && Joined(s.adj, p[n - 1], p[n]);
    if n + 1 < |p| {
      SimpleIsOnward(s, p, n + 1);
      assert p[..n] + [p[n]] == p[..n + 1] && p[n..][1..] == p[n + 1..];
      assert p[n] != p[|p| - 1];
    }
  }

  lemma SimpleIff(s: Search, source: Token, p: Path)
    ensures Extends(s, [source], p) <==> SimplePath(s, source, p)
  {
    if Extends(s, [source], p) {
      OnwardIsSimple(s, [source], p[1..]);
      assert [source] + p[1..] == p;
    }
    if SimplePath(s, source, p) {
      assert p[..1] == [source];
      SimpleIsOnward(s, p, 1);
    }
  }

  // ─── Soundness ──────────────────────────────────────

  lemma ExtendStep(s: Search, path: Path, next: Token, p: Path)
    requires path != [] && |path| <= s.maxHops && next !in path && Joined(s.adj, Last(path), next) && next != s.target
    ensures Extends(s, path + [next], p) <==> |path| < |p| && p[|path|] == next && Extends(s, path, p)
  {
    hide Joined;
    if Extends(s, path + [next], p) {
      assert p[|path|..] == [next] + p[|path| + 1..];
      assert p[..|path|] == p[..|path| + 1][..|path|] == path;
      assert p[|path|] == p[..|path| + 1][|path|] == next;
      assert p[|path|..][1..] == p[|path| + 1..];
    }
    if |path| < |p| && p[|path|] == next && Extends(s, path, p) {
      assert p[|path|..][1..] == p[|path| + 1..];
      assert p[..|path| + 1] == path + [next];
      assert p[|path|..][0] == next;
      assert |p[|path|..]| != 1;
    }
  }

  lemma ExtendLast(s: Search, path: Path, p: Path)
    requires path != [] && |path| <= s.maxHops && s.target !in path && Joined(s.adj, Last(path), s.target)
    ensures Extends(s, path, path + [s.target])
    ensures |path| < |p| && p[|path|] == s.target && Extends(s, path, p) ==> p == path + [s.target]
  {
    hide Joined;
    assert (path + [s.target])[|path|..] == [s.target] && (path + [s.target])[..|path|] == path;
    if |path| < |p| && p[|path|] == s.target && Extends(s, path, p) {
      assert p[|path|..][0] == s.target;
      assert |p[|path|..]| == 1;
      assert p == p[..|path|] + p[|path|..];
    }
  }

  /** Every edge still to follow is one of the frame's node. */
  predicate Leftover(s: Search, path: Path, edges: seq<Edge>)
    requires path != []
  {
    exists k: nat :: k <= |Edges(s.adj, Last(path))| && edges == Edges(s.adj, Last(path))[k..]
  }

  lemma LeftoverTail(s: Search, path: Path, edges: seq<Edge>)
    requires path != [] && edges != [] && Leftover(s, path, edges)
    ensures Leftover(s, path, edges[1..]) && Joined(s.adj, Last(path), Other(edges[0], Last(path)))
  {
    var all := Edges(s.adj, Last(path));
    var k: nat :| k <= |all| && edges == all[k..];
    assert edges[1..] == all[k + 1..];
    LeadsAt(all, Last(path), k);
  }

  lemma {:induction false} LeadsAt(edges: seq<Edge>, node: Token, k: nat)
    requires k < |edges|
    ensures Leads(edges, node, Other(edges[k], node))
  {
    if 0 < k {
      LeadsAt(edges[1..], node, k - 1);
    }
  }

  lemma {:induction false} WalkSound(s: Search, found: seq<Path>, path: Path)
    requires 0 < |path| <= s.maxHops + 1
    ensures found <= Walk(s, found, path)
    ensures forall p <- Walk(s, found, path) :: p in found || Extends(s, path, p)
    decreases s.maxHops + 1 - |path|, 1, 0
  {
    if !(s.cap <= |found| || s.maxHops <= |path| - 1) {
      var edges := Edges(s.adj, Last(path));
      assert edges == edges[0..];
      FollowSound(s, found, path, edges);
    }
  }

  lemma {:induction false} FollowSound(s: Search, found: seq<Path>, path: Path, edges: seq<Edge>)
    requires 0 < |path| <= s.maxHops && Leftover(s, path, edges)
    ensures found <= Follow(s, found, path, edges)
    ensures forall p <- Follow(s, found, path, edges) :: p in found || Extends(s, path, p)
    decreases s.maxHops + 1 - |path|, 0, |edges|
  {
    hide Joined, Leftover, Extends, Leads;
    if edges != [] {
      LeftoverTail(s, path, edges);
      var next := Other(edges[0], Last(path));
      if next in path {
        FollowSound(s, found, path, edges[1..]);
      } else if next == s.target {
        ExtendLast(s, path, path + [next]);
        if |found| + 1 < s.cap {
          FollowSound(s, found + [path + [next]], path, edges[1..]);
        }
      } else {
        WalkSound(s, found, path + [next]);
        var found' := Walk(s, found, path + [next]);
        forall p | p in found' ensures p in found || Extends(s, path, p) {
          ExtendStep(s, path, next, p);
        }
        FollowSound(s, found', path, edges[1..]);
      }
    }
  }

  // ─── The cap ────────────────────────────────────────

  /** A frame that finds the cap reached adds nothing; one that finds it reached by a
      child can add one chain more, and so can each frame above. */
  lemma {:induction false} WalkBounded(s: Search, found: seq<Path>, path: Path)
    requires 0 < |path| <= s.maxHops + 1
    ensures s.cap <= |found| ==> Walk(s, found, path) == found
    ensures |found| < s.cap && |path| <= s.maxHops ==> |Walk(s, found, path)| <= s.cap + s.maxHops - |path|
    ensures |path| == s.maxHops + 1 ==> Walk(s, found, path) == found
    decreases s.maxHops + 1 - |path|, 1, 0
  {
    if !(s.cap <= |found| || s.maxHops <= |path| - 1) {
      FollowBounded(s, found, path, Edges(s.adj, Last(path)));
    }
  }

  lemma {:induction false} FollowBounded(s: Search, found: seq<Path>, path: Path, edges: seq<Edge>)
    requires 0 < |path| <= s.maxHops && |found| < s.cap + s.maxHops - |path|
    ensures |Follow(s, found, path, edges)| <= s.cap + s.maxHops - |path|
    decreases s.maxHops + 1 - |path|, 0, |edges|
  {
    if edges != [] {
      var next := Other(edges[0], Last(path));
      if next in path {
        FollowBounded(s, found, path, edges[1..]);
      } else if next == s.target {
        if |found| + 1 < s.cap {
          FollowBounded(s, found + [path + [next]], path, edges[1..]);
        }
      } else {
        WalkBounded(s, found, path + [next]);
        FollowBounded(s, Walk(s, found, path + [next]), path, edges[1..]);
      }
    }
  }

  // ─── Completeness ───────────────────────────────────

  lemma {:induction false} WalkComplete(s: Search, found: seq<Path>, path: Path, p: Path)
    requires 0 < |path| <= s.maxHops + 1 && Extends(s, path, p)
    requires |Walk(s, found, path)| < s.cap
    ensures p in Walk(s, found, path)
    decreases s.maxHops + 1 - |path|, 1, 0
  {
    WalkSound(s, found, path);
    assert p[|path|..][0] == p[|path|];
    var edges := Edges(s.adj, Last(path));
    assert edges == edges[0..];
    FollowComplete(s, found, path, edges, p);
  }

  lemma {:induction false} FollowComplete(s: Search, found: seq<Path>, path: Path, edges: seq<Edge>, p: Path)
    requires 0 < |path| <= s.maxHops && Leftover(s, path, edges) && Extends(s, path, p)
    requires Leads(edges, Last(path), p[|path|]) && |Follow(s, found, path, edges)| < s.cap
    ensures p in Follow(s, found, path, edges)
    decreases s.maxHops + 1 - |path|, 0, |edges|
  {
    assert p[|path|..][0] == p[|path|] && p[|path|] !in path;
    hide Joined, Leftover, Extends;
    LeftoverTail(s, path, edges);
    var next, tail := Other(edges[0], Last(path)), edges[1..];
    if next in path {
      FollowComplete(s, found, path, tail, p);
    } else if next == s.target {
      var found' := found + [path + [next]];
      ExtendLast(s, path, p);
      if |found'| < s.cap {
        FollowSound(s, found', path, tail);
        if next == p[|path|] {
          assert p == path + [next] && p in found';
        } else {
          FollowComplete(s, found', path, tail, p);
        }
      }
    } else {
      var found' := Walk(s, found, path + [next]);
      FollowSound(s, found', path, tail);
      if next == p[|path|] {
        ExtendStep(s, path, next, p);
        WalkComplete(s, found, path + [next], p);
      } else {
        FollowComplete(s, found', path, tail, p);
      }
    }
  }

  // ─── The search as a whole ──────────────────────────

  lemma {:induction false} LongerKeeps(found: seq<Path>)
    ensures forall p :: p in Longer(found) <==> p in found && 2 < |p|
    ensures |Longer(found)| <= |found|
  {
    if found != [] {
      LongerKeeps(found[1..]);
      assert found == [found[0]] + found[1..];
    }
  }

  /** Each candidate is a simple path of 2 to maxHops edges; every such path is one if
      fewer than the cap were found; and the raw results exceed the cap by less than
      one per hop. */
  lemma CandidatesExact(s: Search, source: Token)
    requires 1 <= s.maxHops
    ensures var raw := Walk(s, [], [source]);
            && (forall p <- Candidates(s, source) :: SimplePath(s, source, p) && 2 < |p|)
            && (|raw| < s.cap ==> forall p :: SimplePath(s, source, p) && 2 < |p| ==> p in Candidates(s, source))
            && |raw| <= s.cap + s.maxHops - 1
  {
    hide SimplePath, Extends;
    var raw := Walk(s, [], [source]);
    WalkSound(s, [], [source]);
    WalkBounded(s, [], [source]);
    LongerKeeps(raw);
    forall p ensures Extends(s, [source], p) <==> SimplePath(s, source, p) {
      SimpleIff(s, source, p);
    }
    if |raw| < s.cap {
      forall p | SimplePath(s, source, p) ensures p in raw {
        WalkComplete(s, [], [source], p);
      }
    }
  }

  // ─── The overshoot is real ──────────────────────────

  /** Distinct tokens, by length; none is the target. */
  function Node(i: nat): Token {
    seq(i + 1, _ => 'A')
  }

  const TARGET: Token := "T"

  function Link(i: nat): Edge {
    Edge(Node(i), Node(i + 1), Sushi, "link", 1)
  }

  function Exit(i: nat): Edge {
    Edge(Node(i), TARGET, Sushi, "exit", 1)
  }

  function Exits(i: nat, k: nat): seq<Edge> {
    if k == 0 then [] else [Exit(i)] + Exits(i, k - 1)
  }

  /** A chain of tokens from i on, each but the last linked to the next and then to the
      target; the last has `cap` pools with the target. */
  function Comb(i: nat, hops: nat, cap: nat): seq<Edge>
    requires i < hops
    decreases hops - i
  {
    if i + 1 == hops then Exits(i, cap) else [Link(i), Exit(i)] + Comb(i + 1, hops, cap)
  }

  /** What the comb lists at a node of it: the link back, then what is its own. */
  function Teeth(j: nat, hops: nat, cap: nat): seq<Edge>
    requires j < hops
  {
    (if j == 0 then [] else [Link(j - 1)]) + Own(j, hops, cap)
  }

  function Own(j: nat, hops: nat, cap: nat): seq<Edge>
    requires j < hops
  {
    if j + 1 == hops then Exits(j, cap) else [Link(j), Exit(j)]
  }

  lemma NodesDiffer(i: nat, j: nat)
    ensures Node(i) == Node(j) <==> i == j
    ensures Node(i) != TARGET
  {
    assert |Node(i)| == i + 1 && |Node(j)| == j + 1;
    assert Node(i)[0] == 'A' && TARGET[0] == 'T';
  }

  lemma {:induction false} IncidentCons(e: Edge, edges: seq<Edge>, t: Token)
    ensures Incident([e] + edges, t) == Ends(e, t) + Incident(edges, t)
  {
    if edges == [] {
      assert [e] + edges == [] + [e];
      IncidentNext([], e, t);
    } else {
      var front, last := edges[..|edges| - 1], edges[|edges| - 1];
      assert [e] + edges == ([e] + front) + [last] && edges == front + [last];
      IncidentNext([e] + front, last, t);
      IncidentNext(front, last, t);
      IncidentCons(e, front, t);
    }
  }

  lemma EndsAt(i: nat, j: nat)
    ensures Ends(Exit(i), Node(j)) == if i == j then [Exit(i)] else []
    ensures Ends(Link(i), Node(j)) == if i == j || i + 1 == j then [Link(i)] else []
  {
    NodesDiffer(i, j);
    NodesDiffer(i + 1, j);
    NodesDiffer(j, i);
    hide Node;
  }

  lemma ExitsStep(i: nat, k: nat, j: nat)
    ensures Incident(Exits(i, k + 1), Node(j)) == (if i == j then [Exit(i)] else []) + Incident(Exits(i, k), Node(j))
  {
    hide Incident, Node, Ends, Exit;
    EndsAt(i, j);
    IncidentCons(Exit(i), Exits(i, k), Node(j));
  }

  lemma NoExits(i: nat, t: Token)
    ensures Exits(i, 0) == [] && Incident([], t) == []
  {
  }

  lemma {:induction false} OwnExits(i: nat, k: nat)
    ensures Incident(Exits(i, k), Node(i)) == Exits(i, k)
  {
    hide Node, Exit, Incident;
    NoExits(i, Node(i));
    if k != 0 {
      ExitsStep(i, k - 1, i);
      OwnExits(i, k - 1);
    }
  }

  lemma {:induction false} OtherExits(i: nat, k: nat, j: nat)
    requires i != j
    ensures Incident(Exits(i, k), Node(j)) == []
  {
    hide Node, Exit, Incident, Exits;
    NoExits(i, Node(j));
    if k != 0 {
      ExitsStep(i, k - 1, j);
      OtherExits(i, k - 1, j);
    }
  }

  lemma CombStep(i: nat, hops: nat, cap: nat, j: nat)
    requires i + 1 < hops
    ensures Incident(Comb(i, hops, cap), Node(j))
            == Ends(Link(i), Node(j)) + (Ends(Exit(i), Node(j)) + Incident(Comb(i + 1, hops, cap), Node(j)))
  {
    hide Incident, Node, Ends, Link, Exit;
    var rest := Comb(i + 1, hops, cap);
    assert Comb(i, hops, cap) == [Link(i)] + ([Exit(i)] + rest);
    IncidentCons(Link(i), [Exit(i)] + rest, Node(j));
    IncidentCons(Exit(i), rest, Node(j));
  }

  lemma {:induction false} CombAt(i: nat, hops: nat, cap: nat, j: nat)
    requires i < hops && j < hops
    ensures Incident(Comb(i, hops, cap), Node(j))
            == if j < i then [] else if j == i then Own(j, hops, cap) else Teeth(j, hops, cap)
    decreases hops - i
  {
    hide Incident, Node, Exits, Ends, Link, Exit;
    if i + 1 == hops {
      if i == j {
        OwnExits(i, cap);
      } else {
        OtherExits(i, cap, j);
      }
    } else {
      hide Comb;
      CombStep(i, hops, cap, j);
      CombAt(i + 1, hops, cap, j);
      EndsAt(i, j);
      if j == i {
        assert [Link(i)] + ([Exit(i)] + []) == [Link(i), Exit(i)];
      } else if j == i + 1 {
        hide Own;
        assert [] + Own(j, hops, cap) == Own(j, hops, cap);
      } else {
        hide Own, Teeth;
        var rest := Incident(Comb(i + 1, hops, cap), Node(j));
        assert [] + ([] + rest) == rest;
      }
    }
  }

  lemma {:induction false} SushiKept(list: seq<Edge>, v: Venue)
    requires forall e <- list :: e.venue == Sushi
    ensures Of(list, v) == if v == Sushi then list else []
  {
    if list != [] {
      assert list[0] in list && forall e <- list[1..] :: e in list;
      SushiKept(list[1..], v);
    }
  }

  lemma {:induction false} ExitsAreSushi(i: nat, k: nat)
    ensures forall e <- Exits(i, k) :: e.venue == Sushi
  {
    if k != 0 {
      ExitsAreSushi(i, k - 1);
    }
  }

  /** The pruned graph of a comb. */
  ghost predicate CombGraph(s: Search, branchCap: nat) {
    && 0 < s.cap && 0 < s.maxHops && s.target == TARGET
    && forall t :: Edges(s.adj, t) == Pruned(Incident(Comb(0, s.maxHops, s.cap), t), branchCap)
  }

  lemma CombEdges(s: Search, branchCap: nat, j: nat)
    requires CombGraph(s, branchCap) && j < s.maxHops
    ensures Edges(s.adj, Node(j)) == Teeth(j, s.maxHops, s.cap)
  {
    assert Edges(s.adj, Node(j)) == Pruned(Incident(Comb(0, s.maxHops, s.cap), Node(j)), branchCap);
    CombAt(0, s.maxHops, s.cap, j);
    ExitsAreSushi(j, s.cap);
    hide CombGraph, Node, Exits, Incident, Comb;
    var list := Teeth(j, s.maxHops, s.cap);
    assert forall e <- list :: e.venue == Sushi;
    assert j == 0 ==> [] + Own(j, s.maxHops, s.cap) == Own(j, s.maxHops, s.cap);
    hide Teeth, Own, Edges;
    SushiPruned(list, branchCap);
  }

  lemma SushiPruned(list: seq<Edge>, branchCap: nat)
    requires forall e <- list :: e.venue == Sushi
    ensures Pruned(list, branchCap) == list
  {
    SushiKept(list, Aqua);
    SushiKept(list, Sushi);
    SushiKept(list, Curve);
    hide Of;
  }

  /** The way down the comb. */
  function Down(i: nat): Path {
    seq(i + 1, k requires 0 <= k => Node(k))
  }

  lemma OnTheWay(i: nat, j: nat)
    ensures Node(j) in Down(i) <==> j <= i
    ensures TARGET !in Down(i) && Last(Down(i)) == Node(i) && Down(i) + [Node(i + 1)] == Down(i + 1)
  {
    forall k: nat | k <= i ensures Down(i)[k] == Node(k) && (Node(k) == Node(j) <==> k == j) && Node(k) != TARGET {
      NodesDiffer(k, j);
    }
    if j <= i {
      assert Down(i)[j] == Node(j);
    }
  }

  /** The last token's pools fill the results to the cap, and no further. */
  lemma {:induction false} FollowExits(s: Search, found: seq<Path>, i: nat, k: nat)
    requires s.target == TARGET && i + 1 <= s.maxHops && |found| < s.cap == |found| + k
    ensures |Follow(s, found, Down(i), Exits(i, k))| == s.cap
    decreases k
  {
    OnTheWay(i, i);
    var found' := found + [Down(i) + [TARGET]];
    assert Exits(i, k)[0] == Exit(i) && Exits(i, k)[1..] == Exits(i, k - 1);
    assert Other(Exit(i), Node(i)) == TARGET;
    hide Down, Exits, Exit, Node;
    if |found'| < s.cap {
      FollowExits(s, found', i, k - 1);
    }
  }

  lemma SkipBack(s: Search, found: seq<Path>, i: nat, rest: seq<Edge>)
    requires 0 < i < s.maxHops
    ensures Follow(s, found, Down(i), [Link(i - 1)] + rest) == Follow(s, found, Down(i), rest)
  {
    OnTheWay(i, i - 1);
    NodesDiffer(i - 1, i);
    assert ([Link(i - 1)] + rest)[1..] == rest;
  }

  lemma FollowTeeth(s: Search, found: seq<Path>, branchCap: nat, i: nat)
    requires CombGraph(s, branchCap) && i < s.maxHops && |found| < s.cap
    ensures Walk(s, found, Down(i)) == Follow(s, found, Down(i), Own(i, s.maxHops, s.cap))
  {
    OnTheWay(i, i);
    CombEdges(s, branchCap, i);
    if 0 < i {
      SkipBack(s, found, i, Own(i, s.maxHops, s.cap));
    } else {
      assert [] + Own(i, s.maxHops, s.cap) == Own(i, s.maxHops, s.cap);
    }
    hide CombGraph, Own, Node, Down, Follow;
  }

  /** One frame's own edges once its child is done: the exit adds one chain, full or not. */
  lemma FollowOwn(s: Search, i: nat)
    requires s.target == TARGET && i + 1 < s.maxHops
    requires s.cap <= |Walk(s, [], Down(i + 1))|
    ensures |Follow(s, [], Down(i), [Link(i), Exit(i)])| == |Walk(s, [], Down(i + 1))| + 1
  {
    OnTheWay(i, i + 1);
    NodesDiffer(i, i + 1);
    NodesDiffer(i + 1, i);
    var child := Walk(s, [], Down(i + 1));
    assert [Link(i), Exit(i)][1..] == [Exit(i)] && [Exit(i)][1..] == [];
    assert Other(Link(i), Node(i)) == Node(i + 1) && Other(Exit(i), Node(i)) == TARGET;
    hide Walk, Down, Node, Link, Exit;
    assert Follow(s, child, Down(i), [Exit(i)]) == child + [Down(i) + [TARGET]];
  }

  lemma {:induction false} CombOvershoots(s: Search, branchCap: nat, i: nat)
    requires CombGraph(s, branchCap) && i < s.maxHops
    ensures |Walk(s, [], Down(i))| == s.cap + s.maxHops - 1 - i
    decreases s.maxHops - i
  {
    FollowTeeth(s, [], branchCap, i);
    if i + 1 == s.maxHops {
      FollowExits(s, [], i, s.cap);
    } else {
      CombOvershoots(s, branchCap, i + 1);
      FollowOwn(s, i);
    }
  }

  /** The bound cannot be improved: for every cap and number of hops there are pools
      whose pruned graph, under any branch cap, yields exactly cap + maxHops - 1. */
  lemma CapCanBeOvershot(cap: nat, maxHops: nat, branchCap: nat, adj: Graph)
    requires 1 <= cap && 1 <= maxHops
    requires forall t :: Edges(adj, t) == Pruned(Incident(Comb(0, maxHops, cap), t), branchCap)
    ensures |Walk(Search(adj, TARGET, cap, maxHops), [], [Node(0)])| == cap + maxHops - 1
  {
    var s := Search(adj, TARGET, cap, maxHops);
    assert Down(0) == [Node(0)];
    CombOvershoots(s, branchCap, 0);
  }
}
