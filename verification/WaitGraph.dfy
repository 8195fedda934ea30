/**
 The wait-for graph of a lock snapshot and its cycle check (internal/agentapi/api.go,
 lockView and hasCycle): a three-colour depth-first search with one `found` flag.
 */
module WaitGraph {

  datatype Wait = Wait(waiting: string, blocking: string)

  type Edges = map<string, seq<string>>

  datatype Mark = OnPath | Done

  predicate Edge(e: Edges, a: string, b: string) { a in e && b in e[a] }

  /** p follows edges from its first actor to its last. */
  ghost predicate Walk(e: Edges, p: seq<string>) {
    forall i :: 0 <= i < |p| - 1 ==> Edge(e, p[i], p[i + 1])
  }

  ghost predicate WalkBetween(e: Edges, p: seq<string>, a: string, b: string) {
    |p| >= 2 && p[0] == a && p[|p| - 1] == b && Walk(e, p)
  }

  /** b can be reached from a along one or more edges. */
  ghost predicate Reaches(e: Edges, a: string, b: string) { exists p :: WalkBetween(e, p, a, b) }

  ghost predicate ReachesItself(e: Edges, a: string) { Reaches(e, a, a) }

  ghost predicate Cyclic(e: Edges) { exists a :: ReachesItself(e, a) }

  // ---- the edges of a snapshot

  /** An edge for every wait between two named actors. */
  method BuildEdges(waits: seq<Wait>) returns (edges: Edges)
    ensures forall a, b :: Edge(edges, a, b) <==> NamedWait(waits, a, b)
  {
    edges := map[];
    for i := 0 to |waits|
      invariant forall a, b :: Edge(edges, a, b) <==> a != "" && b != "" && Wait(a, b) in waits[..i]
    {
      var w := waits[i];
      ghost var before := edges;
      if w.waiting != "" && w.blocking != "" {
        edges := edges[w.waiting := (if w.waiting in edges then edges[w.waiting] else []) + [w.blocking]];
      }
      assert waits[..i + 1] == waits[..i] + [w];
      assert forall a, b :: Edge(edges, a, b) <==> Edge(before, a, b) || (a != "" && b != "" && Wait(a, b) == w);
    }
    assert waits[..|waits|] == waits;
  }

  /** The actors that occur in the graph. */
  function Universe(e: Edges): set<string> { e.Keys + set a, b | a in e && b in e[a] :: b }

  // ---- ranks: why a finished search rules a cycle out

  /** Every finished actor only waits for actors finished before it. */
  ghost predicate Ranked(e: Edges, rank: map<string, nat>) {
    forall a, b :: a in rank && Edge(e, a, b) ==> b in rank && rank[b] < rank[a]
  }

  lemma {:induction false} RankFalls(e: Edges, rank: map<string, nat>, p: seq<string>)
    requires Ranked(e, rank) && |p| >= 2 && Walk(e, p) && p[0] in rank
    ensures p[|p| - 1] in rank && rank[p[|p| - 1]] < rank[p[0]]
    decreases |p|
  {
    assert Edge(e, p[0], p[1]);
    if |p| > 2 {
      var q := p[1..];
      assert forall i :: 0 <= i < |q| ==> q[i] == p[i + 1];
      RankFalls(e, rank, q);
    }
  }

  lemma RankedIsAcyclic(e: Edges, rank: map<string, nat>)
    requires Ranked(e, rank) && e.Keys <= rank.Keys
    ensures !Cyclic(e)
  {
    if a :| ReachesItself(e, a) {
      var p :| WalkBetween(e, p, a, a);
      assert Edge(e, p[0], p[1]);
      RankFalls(e, rank, p);
    }
  }

  lemma BackEdgeIsACycle(e: Edges, path: seq<string>, n: string)
    requires path != [] && Walk(e, path) && n in path && Edge(e, path[|path| - 1], n)
    ensures Cyclic(e)
  {
    var j :| 0 <= j < |path| && path[j] == n;
    var p := path[j..] + [n];
    forall i | 0 <= i < |p| - 1 ensures Edge(e, p[i], p[i + 1]) {
      if i < |p| - 2 { assert p[i] == path[j + i] && p[i + 1] == path[j + i + 1]; }
    }
    assert WalkBetween(e, p, n, n);
    assert ReachesItself(e, n);
  }

  // ---- the search

  /** What holds between visits as long as nothing was found: `path` is the chain of actors
      being visited, and the actors marked done are exactly the ranked ones. */
  ghost predicate Sound(e: Edges, state: map<string, Mark>, rank: map<string, nat>, path: seq<string>) {
    && Walk(e, path)
    && (forall x :: x in state && state[x] == OnPath <==> x in path)
    && (forall x :: x in state && state[x] == Done <==> x in rank)
    && (forall x :: x in rank ==> rank[x] < |rank|)
    && Ranked(e, rank)
  }

  lemma EnterKeeps(e: Edges, state: map<string, Mark>, rank: map<string, nat>, path: seq<string>, n: string)
    requires Sound(e, state, rank, path) && n !in state && (path != [] ==> Edge(e, path[|path| - 1], n))
    ensures Sound(e, state[n := OnPath], rank, path + [n])
  {
    WalkSnoc(e, path, n);
  }

  /** An actor whose successors have all finished ranks above them. */
  lemma LeaveKeeps(e: Edges, state: map<string, Mark>, rank: map<string, nat>, path: seq<string>, n: string)
    requires Sound(e, state, rank, path + [n]) && n !in path
    requires forall b :: Edge(e, n, b) ==> b in rank
    ensures n !in rank && Sound(e, state[n := Done], rank[n := |rank|], path)
  {
    var deeper := path + [n];
    assert deeper[|path|] == n && forall i :: 0 <= i < |path| ==> deeper[i] == path[i];
    assert n in deeper;
    assert forall x :: x in deeper <==> x in path || x == n;
    assert |rank[n := |rank|]| == |rank| + 1;
  }

  lemma OnPathOrDone(e: Edges, state: map<string, Mark>, rank: map<string, nat>, path: seq<string>, n: string)
    requires Sound(e, state, rank, path) && n in state
    ensures if state[n] == OnPath then n in path && path != [] else n in rank
    ensures path != [] ==> Walk(e, path)
  {
  }

  class Search {
    const edges: Edges
    var state: map<string, Mark>
    var found: bool
    ghost var rank: map<string, nat>

    constructor (edges: Edges)
      ensures this.edges == edges && state == map[] && !found && rank == map[]
    {
      this.edges := edges;
      state, found, rank := map[], false, map[];
    }

    /** Either a cycle is known, or the search is sound so far. */
    ghost predicate Valid(path: seq<string>)
      reads this
    {
      if found then Cyclic(edges) else Sound(edges, state, rank, path)
    }

    method Visit(n: string, ghost path: seq<string>)
      requires n in Universe(edges) && Valid(path)
      requires path != [] ==> Edge(edges, path[|path| - 1], n)
      modifies this
      ensures Valid(path) && old(state).Keys <= state.Keys
      ensures !found ==> !old(found) && n in rank && old(rank).Keys <= rank.Keys
      decreases Universe(edges) - state.Keys, 0
    {
      hide Sound, Cyclic, Universe, Walk, Ranked;
      if found {
        return;
      }
      if n in state {
        OnPathOrDone(edges, state, rank, path, n);
        if state[n] == Done {
          return;
        }
        BackEdgeIsACycle(edges, path, n);
        found := true;
        return;
      }
      EnterKeeps(edges, state, rank, path, n);
      assert n !in path by { NotOnPath(edges, state, rank, path, n); }
      Shrinks(Universe(edges), state.Keys, state.Keys + {n}, n);
      state := state[n := OnPath];
      VisitSuccessors(n, path + [n]);
      if !found {
        LeaveKeeps(edges, state, rank, path, n);
        rank := rank[n := |rank|];
      }
      state := state[n := Done];
    }

    /** The loop over the actors n waits for. */
    method VisitSuccessors(n: string, ghost path: seq<string>)
      requires Valid(path) && path != [] && path[|path| - 1] == n
      modifies this
      ensures Valid(path) && old(state).Keys <= state.Keys
      ensures !found ==> !old(found) && old(rank).Keys <= rank.Keys && forall b :: Edge(edges, n, b) ==> b in rank
      decreases Universe(edges) - state.Keys, 1
    {
      hide Sound, Cyclic, Universe, Ranked;
      var successors := if n in edges then edges[n] else [];
      for i := 0 to |successors|
        invariant Valid(path) && old(state).Keys <= state.Keys
        invariant !found ==> !old(found) && old(rank).Keys <= rank.Keys
        invariant !found ==> forall j :: 0 <= j < i ==> successors[j] in rank
      {
        EdgeInUniverse(edges, n, successors[i]);
        assert Universe(edges) - state.Keys <= Universe(edges) - old(state).Keys;
        Visit(successors[i], path);
      }
    }
  }

  lemma EdgeInUniverse(e: Edges, a: string, b: string)
    requires a in e && b in e[a]
    ensures b in Universe(e)
  {
  }

  lemma Shrinks(all: set<string>, before: set<string>, now: set<string>, n: string)
    requires n in all && n !in before && before + {n} <= now
    ensures all - now < all - before
  {
    assert n in all - before && n !in all - now;
  }

  lemma NotOnPath(e: Edges, state: map<string, Mark>, rank: map<string, nat>, path: seq<string>, n: string)
    requires Sound(e, state, rank, path) && n !in state
    ensures n !in path
  {
  }

  lemma WalkSnoc(e: Edges, path: seq<string>, n: string)
    requires Walk(e, path) && (path != [] ==> Edge(e, path[|path| - 1], n))
    ensures Walk(e, path + [n])
  {
  }

  /** For every finite graph the search ends, and answers true exactly when some actor can reach
      itself along one or more wait edges. The order in which the keys are visited is left open. */
  method HasCycle(edges: Edges) returns (found: bool)
    ensures found <==> Cyclic(edges)
  {
    var s := new Search(edges);
    var left := edges.Keys;
    while left != {}
      invariant left <= edges.Keys
      invariant s.Valid([]) && (!s.found ==> edges.Keys - left <= s.rank.Keys)
      decreases left
    {
      var k :| k in left;
      s.Visit(k, []);
      left := left - {k};
    }
    if !s.found {
      assert Sound(edges, s.state, s.rank, []);
      RankedIsAcyclic(edges, s.rank);
    }
    found := s.found;
  }

  predicate NamedWait(waits: seq<Wait>, a: string, b: string) { a != "" && b != "" && Wait(a, b) in waits }

  /** p is a closed chain in which each named actor waits for the next. */
  ghost predicate WaitCycle(waits: seq<Wait>, p: seq<string>) {
    && |p| >= 2 && p[0] == p[|p| - 1]
    && (forall i :: 0 <= i < |p| - 1 ==> NamedWait(waits, p[i], p[i + 1]))
  }

  lemma CyclesOfWaits(edges: Edges, waits: seq<Wait>)
    requires forall a, b :: Edge(edges, a, b) <==> NamedWait(waits, a, b)
    ensures Cyclic(edges) <==> exists p :: WaitCycle(waits, p)
  {
    if a :| ReachesItself(edges, a) {
      var p :| WalkBetween(edges, p, a, a);
      forall i | 0 <= i < |p| - 1 ensures NamedWait(waits, p[i], p[i + 1]) {
        assert Edge(edges, p[i], p[i + 1]);
      }
      assert WaitCycle(waits, p);
    }
    if p :| WaitCycle(waits, p) {
      forall i | 0 <= i < |p| - 1 ensures Edge(edges, p[i], p[i + 1]) {
        assert NamedWait(waits, p[i], p[i + 1]);
      }
      assert WalkBetween(edges, p, p[0], p[0]);
      assert ReachesItself(edges, p[0]);
    }
  }

  /** The cycle flag of a lock view: some actor waits, directly or through others, for itself. */
  method LockViewCycle(waits: seq<Wait>) returns (cycle: bool)
    ensures cycle <==> exists p :: WaitCycle(waits, p)
  {
    var edges := BuildEdges(waits);
    cycle := HasCycle(edges);
    CyclesOfWaits(edges, waits);
  }
}
