/** The directed border graph and the fortification value derived from its
    degree centrality. */
module BorderGraph {
  import opened Results
  import opened Snapshot

  datatype Graph = Graph(nodes: set<string>, edges: set<(string, string)>)

  /** Adding an edge also adds both of its endpoints as nodes. */
  function AddEdge(g: Graph, u: string, v: string): (h: Graph)
    ensures h.edges == g.edges + {(u, v)}
    ensures h.nodes == g.nodes + {u, v}
  {
    Graph(g.nodes + {u, v}, g.edges + {(u, v)})
  }

  function Endpoints(es: set<(string, string)>): set<string> {
    (set e | e in es :: e.0) + (set e | e in es :: e.1)
  }

  /** One edge from each listed territory to each of its borders. */
  function EdgesFrom(b: Board, names: seq<string>): set<(string, string)>
    requires forall n :: n in names ==> n in b.countries
  {
    set a, c | a in names && c in b.countries[a].borders :: (a, c)
  }

  /** The graph the board determines; it has no isolated nodes. */
  function BorderGraphOf(b: Board): Graph
    requires ValidBoard(b)
  {
    var es := EdgesFrom(b, b.order);
    Graph(Endpoints(es), es)
  }

  /** Building the graph edge by edge, territory by territory. */
  method MakeGraph(b: Board) returns (g: Graph)
    requires ValidBoard(b)
    ensures forall a, c :: (a, c) in g.edges <==> a in b.countries && c in b.countries[a].borders
    ensures forall v :: v in g.nodes <==> exists e :: e in g.edges && (e.0 == v || e.1 == v)
    ensures g == BorderGraphOf(b)
  {
    g := Graph({}, {});
    var i := 0;
    while i < |b.order|
      invariant 0 <= i <= |b.order|
      invariant g.edges == EdgesFrom(b, b.order[..i])
      invariant g.nodes == Endpoints(g.edges)
    {
      var name := b.order[i];
      var bs := b.countries[name].borders;
      var j := 0;
      while j < |bs|
        invariant 0 <= j <= |bs|
        invariant g.edges == EdgesFrom(b, b.order[..i]) + EdgesOf(name, bs[..j])
        invariant g.nodes == Endpoints(g.edges)
      {
        EndpointsAdd(g.edges, name, bs[j]);
        EdgesOfSnoc(name, bs, j);
        g := AddEdge(g, name, bs[j]);
        j := j + 1;
      }
      EdgesFromSnoc(b, b.order, i);
      i := i + 1;
    }
    assert b.order[..i] == b.order;
  }

  /** The edges from `a` to each of `cs`. */
  function EdgesOf(a: string, cs: seq<string>): set<(string, string)> {
    set c | c in cs :: (a, c)
  }

  lemma EdgesOfSnoc(a: string, cs: seq<string>, j: nat)
    requires j < |cs|
    ensures EdgesOf(a, cs[..j + 1]) == EdgesOf(a, cs[..j]) + {(a, cs[j])}
  {
    assert cs[..j + 1] == cs[..j] + [cs[j]];
  }

  lemma EdgesFromSnoc(b: Board, names: seq<string>, i: nat)
    requires i < |names|
    requires forall n :: n in names ==> n in b.countries
    ensures EdgesFrom(b, names[..i + 1]) == EdgesFrom(b, names[..i]) + EdgesOf(names[i], b.countries[names[i]].borders)
  {
    var bs := b.countries[names[i]].borders;
    assert names[..i + 1] == names[..i] + [names[i]];
    assert bs[..|bs|] == bs;
  }

  lemma EndpointsAdd(es: set<(string, string)>, u: string, v: string)
    ensures Endpoints(es + {(u, v)}) == Endpoints(es) + {u, v}
  {
    var es' := es + {(u, v)};
    assert (u, v) in es';
    assert (u, v).0 in Endpoints(es') && (u, v).1 in Endpoints(es');
  }

  function OutEdges(g: Graph, v: string): set<(string, string)> {
    set e | e in g.edges && e.0 == v
  }

  function InEdges(g: Graph, v: string): set<(string, string)> {
    set e | e in g.edges && e.1 == v
  }

  /** In-degree plus out-degree. */
  function Degree(g: Graph, v: string): nat {
    |OutEdges(g, v)| + |InEdges(g, v)|
  }

  /** Degree over the number of other nodes. */
  function DegreeCentrality(g: Graph, v: string): real
    requires |g.nodes| >= 2
  {
    Degree(g, v) as real / (|g.nodes| - 1) as real
  }

  /** Nodes are exactly the edges' endpoints, and no edge is a loop. */
  predicate WellFormedGraph(g: Graph) {
    && g.nodes == Endpoints(g.edges)
    && forall e :: e in g.edges ==> e.0 != e.1
  }

  /** The border graph has no isolated node and no loop. */
  lemma BorderGraphWellFormed(b: Board)
    requires ValidBoard(b)
    ensures WellFormedGraph(BorderGraphOf(b))
  {
    var g := BorderGraphOf(b);
    forall e | e in g.edges
      ensures e.0 != e.1
    {
      assert ValidTerritory(b, e.0);
    }
  }

  /** A node of a well-formed graph has an edge, to some other node. */
  lemma NodeHasEdge(g: Graph, v: string)
    requires WellFormedGraph(g)
    requires v in g.nodes
    ensures |g.nodes| >= 2 && Degree(g, v) >= 1
  {
    var e := EdgeAt(g.edges, v);
    assert e.0 in (set e' | e' in g.edges :: e'.0);
    assert e.1 in (set e' | e' in g.edges :: e'.1);
    TwoNodes(g.nodes, e.0, e.1);
    if e.0 == v {
      assert e in OutEdges(g, v);
    } else {
      assert e in InEdges(g, v);
    }
  }

  /** An edge touching a node of the graph. */
  lemma EdgeAt(es: set<(string, string)>, v: string) returns (e: (string, string))
    requires v in Endpoints(es)
    ensures e in es && (e.0 == v || e.1 == v)
  {
    if v in (set e | e in es :: e.0) {
      e :| e in es && e.0 == v;
    } else {
      e :| e in es && e.1 == v;
    }
  }

  lemma TwoNodes(s: set<string>, a: string, c: string)
    requires a in s && c in s && a != c
    ensures |s| >= 2
  {
    assert s * {a, c} == {a, c};
    assert |s - {a, c}| == |s| - 2;
  }

  /** A territory is a node exactly when it borders something or something
      borders it. */
  lemma InBorderGraph(b: Board, v: string)
    requires ValidBoard(b)
    ensures v in BorderGraphOf(b).nodes <==>
              v in b.countries &&
              (|b.countries[v].borders| > 0 || exists a :: a in b.countries && v in b.countries[a].borders)
  {
    var g := BorderGraphOf(b);
    if v in g.nodes {
      var e :| e in g.edges && (e.0 == v || e.1 == v);
      assert e.0 in b.countries && e.1 in b.countries[e.0].borders;
      assert ValidTerritory(b, e.0);
    }
    if v in b.countries && |b.countries[v].borders| > 0 {
      var c := b.countries[v].borders[0];
      assert (v, c) in g.edges;
    }
    if v in b.countries && exists a :: a in b.countries && v in b.countries[a].borders {
      var a :| a in b.countries && v in b.countries[a].borders;
      assert (a, v) in g.edges;
    }
  }

  function InverseCentrality(g: Graph, v: string): (r: real)
    requires |g.nodes| >= 2 && Degree(g, v) >= 1
    ensures r > 0.0 && r * DegreeCentrality(g, v) == 1.0
  {
    var c := DegreeCentrality(g, v);
    PositiveRatio(Degree(g, v), |g.nodes| - 1);
    Reciprocal(c);
    1.0 / c
  }

  /** `1 / degree_centrality(G)[v]`: KeyError for a name outside the graph. */
  function Fortify(g: Graph, v: string): (r: Result<real>)
    requires WellFormedGraph(g)
    ensures r.Ok? <==> v in g.nodes
    ensures r.Err? ==> r.error == KeyError
    ensures r.Ok? ==> |g.nodes| >= 2 && Degree(g, v) >= 1 && r.value == InverseCentrality(g, v)
  {
    if v !in g.nodes then Err(KeyError)
    else
      NodeHasEdge(g, v);
      Ok(InverseCentrality(g, v))
  }

  /** The fortification value of a territory on the board's border graph. */
  function FortifyValue(b: Board, name: string): (r: Result<real>)
    requires ValidBoard(b)
    ensures r.Ok? <==> name in BorderGraphOf(b).nodes
    ensures r.Err? ==> r.error == KeyError
    ensures r.Ok? ==> r.value > 0.0
  {
    BorderGraphWellFormed(b);
    Fortify(BorderGraphOf(b), name)
  }

  lemma PositiveRatio(x: int, y: int)
    requires x > 0 && y > 0
    ensures x as real / y as real > 0.0
  {
  }

  lemma Reciprocal(c: real)
    requires c > 0.0
    ensures 1.0 / c > 0.0 && (1.0 / c) * c == 1.0
  {
  }

  lemma DivMonotone(x: int, y: int, k: int)
    requires 0 <= x <= y && k > 0
    ensures x as real / k as real <= y as real / k as real
  {
  }

  lemma InverseAntitone(ru: real, cu: real, rv: real, cv: real)
    requires 0.0 < cu <= cv && ru * cu == 1.0 && rv * cv == 1.0
    ensures rv <= ru
  {
    assert ru == 1.0 / cu && rv == 1.0 / cv;
    assert 1.0 / cu - 1.0 / cv == (cv - cu) / (cu * cv);
  }

  /** Fewer edges, higher value: the fortification value falls as the
      degree rises. */
  lemma FortifyAntitone(g: Graph, u: string, v: string)
    requires WellFormedGraph(g)
    requires u in g.nodes && v in g.nodes
    requires Degree(g, u) <= Degree(g, v)
    ensures Fortify(g, v).value <= Fortify(g, u).value
  {
    NodeHasEdge(g, u);
    NodeHasEdge(g, v);
    DivMonotone(Degree(g, u), Degree(g, v), |g.nodes| - 1);
    InverseAntitone(InverseCentrality(g, u), DegreeCentrality(g, u),
                    InverseCentrality(g, v), DegreeCentrality(g, v));
  }
}
