/** generate_relates_to_audit: connected components of the `relates_to` graph. */
module RelatesClusters {
  import opened Ordering
  import opened DependencyGraph

  const RELATES_TO := "relates_to"

  ghost predicate Endpoint(edges: seq<Edge>, n: Node) {
    exists e :: e in edges && e.kind == RELATES_TO && (e.source == n || e.target == n)
  }

  ghost predicate Linked(edges: seq<Edge>, a: Node, b: Node) {
    exists e :: e in edges && e.kind == RELATES_TO
                && ((e.source == a && e.target == b) || (e.source == b && e.target == a))
  }

  ghost predicate IsChain(edges: seq<Edge>, w: seq<Node>) {
    |w| > 0 && forall i :: 0 <= i < |w| - 1 ==> Linked(edges, w[i], w[i + 1])
  }

  /** Connected ignoring direction. */
  ghost predicate Connected(edges: seq<Edge>, a: Node, b: Node) {
    exists w :: IsChain(edges, w) && w[0] == a && w[|w| - 1] == b
  }

  lemma ConnectedReflexive(edges: seq<Edge>, a: Node)
    ensures Connected(edges, a, a)
  {
    assert IsChain(edges, [a]) && [a][0] == a && [a][|[a]| - 1] == a;
  }

  lemma ConnectedStep(edges: seq<Edge>, a: Node, b: Node, c: Node)
    requires Connected(edges, a, b) && Linked(edges, b, c)
    ensures Connected(edges, a, c)
  {
    var w :| IsChain(edges, w) && w[0] == a && w[|w| - 1] == b;
    var v := w + [c];
    forall i | 0 <= i < |v| - 1 ensures Linked(edges, v[i], v[i + 1]) {
      assert v[i] == w[i];
    }
    assert IsChain(edges, v) && v[0] == a && v[|v| - 1] == c;
  }

  lemma ConnectedSymmetric(edges: seq<Edge>, a: Node, b: Node)
    requires Connected(edges, a, b)
    ensures Connected(edges, b, a)
  {
    var w :| IsChain(edges, w) && w[0] == a && w[|w| - 1] == b;
    var v := seq(|w|, i requires 0 <= i < |w| => w[|w| - 1 - i]);
    forall i | 0 <= i < |v| - 1 ensures Linked(edges, v[i], v[i + 1]) {
      assert Linked(edges, w[|w| - 2 - i], w[|w| - 2 - i + 1]);
    }
    assert IsChain(edges, v) && v[0] == b && v[|v| - 1] == a;
  }

  lemma {:induction false} ClosedUnderLinks(edges: seq<Edge>, s: set<Node>, a: Node, b: Node)
    requires a in s && Connected(edges, a, b)
    requires forall n, m :: n in s && Linked(edges, n, m) ==> m in s
    ensures b in s
  {
    var w :| IsChain(edges, w) && w[0] == a && w[|w| - 1] == b;
    var i := 0;
    while i < |w| - 1
      invariant 0 <= i < |w| && w[i] in s
    {
      assert Linked(edges, w[i], w[i + 1]);
      i := i + 1;
    }
  }

  // ----- the adjacency dictionary -----

  type Adjacency = map<Node, set<Node>>

  ghost predicate IsAdjacency(edges: seq<Edge>, adj: Adjacency) {
    && (forall n :: n in adj <==> Endpoint(edges, n))
    && (forall n, m :: n in adj ==> (m in adj[n] <==> Linked(edges, n, m)))
  }

  function Add(adj: Adjacency, n: Node, m: Node): (r: Adjacency)
    ensures r.Keys == adj.Keys + {n}
    ensures r[n] == (if n in adj then adj[n] else {}) + {m}
    ensures forall k :: k in adj && k != n ==> r[k] == adj[k]
  {
    adj[n := (if n in adj then adj[n] else {}) + {m}]
  }

  lemma EndpointOfMore(edges: seq<Edge>, e: Edge, n: Node)
    ensures Endpoint(edges + [e], n) <==>
              Endpoint(edges, n) || (e.kind == RELATES_TO && (e.source == n || e.target == n))
  {
    var more := edges + [e];
    assert e in more;
    if Endpoint(edges, n) {
      var x :| x in edges && x.kind == RELATES_TO && (x.source == n || x.target == n);
      assert x in more;
    }
  }

  lemma LinkedInMore(edges: seq<Edge>, e: Edge, n: Node, m: Node)
    ensures Linked(edges + [e], n, m) <==>
              Linked(edges, n, m) ||
              (e.kind == RELATES_TO && ((e.source == n && e.target == m) || (e.source == m && e.target == n)))
  {
    var more := edges + [e];
    assert e in more;
    if Linked(edges, n, m) {
      var x :| x in edges && x.kind == RELATES_TO && ((x.source == n && x.target == m) || (x.source == m && x.target == n));
      assert x in more;
    }
  }

  lemma AddEdge(edges: seq<Edge>, e: Edge, adj: Adjacency)
    requires IsAdjacency(edges, adj)
    ensures e.kind == RELATES_TO ==> IsAdjacency(edges + [e], Add(Add(adj, e.source, e.target), e.target, e.source))
    ensures e.kind != RELATES_TO ==> IsAdjacency(edges + [e], adj)
  {
    forall n { EndpointOfMore(edges, e, n); }
    forall n, m { LinkedInMore(edges, e, n, m); }
    forall n, m | Linked(edges, n, m) ensures Endpoint(edges, n) { }
  }

  method BuildAdjacency(edges: seq<Edge>) returns (adj: Adjacency)
    ensures IsAdjacency(edges, adj)
  {
    adj := map[];
    for k := 0 to |edges|
      invariant IsAdjacency(edges[..k], adj)
    {
      var e := edges[k];
      assert edges[..k + 1] == edges[..k] + [e];
      AddEdge(edges[..k], e, adj);
      if e.kind == RELATES_TO {
        adj := Add(Add(adj, e.source, e.target), e.target, e.source);
      }
    }
    assert edges[..|edges|] == edges;
  }

  // ----- one component -----

  /** Links of visited nodes lead to visited or queued nodes, and everything found is connected to the start. */
  ghost predicate SearchInvariant(edges: seq<Edge>, start: Node, visited: set<Node>, queue: seq<Node>,
                                  component: seq<Node>) {
    && Distinct(component)
    && (forall n :: n in component || n in queue ==> Connected(edges, start, n))
    && (forall n :: n in component ==> n in visited)
    && (forall n :: n in queue ==> Endpoint(edges, n))
    && (forall n, m :: n in component && Linked(edges, n, m) ==> m in visited || m in queue)
    && (start in component || start in queue)
  }

  lemma SearchStep(edges: seq<Edge>, start: Node, visited: set<Node>, queue: seq<Node>, component: seq<Node>,
                   added: seq<Node>)
    requires |queue| > 0 && queue[0] !in visited
    requires SearchInvariant(edges, start, visited, queue, component)
    requires forall m :: m in added <==> Linked(edges, queue[0], m) && m !in visited + {queue[0]}
    ensures SearchInvariant(edges, start, visited + {queue[0]}, queue[1..] + added, component + [queue[0]])
  {
    var current := queue[0];
    assert queue == [current] + queue[1..];
    forall m | m in added ensures Connected(edges, start, m) && Endpoint(edges, m) {
      ConnectedStep(edges, start, current, m);
      var e :| e in edges && e.kind == RELATES_TO
               && ((e.source == current && e.target == m) || (e.source == m && e.target == current));
    }
  }

  method Unvisited(neighbors: seq<Node>, visited: set<Node>) returns (r: seq<Node>)
    ensures forall m :: m in r <==> m in neighbors && m !in visited
  {
    r := [];
    for i := 0 to |neighbors|
      invariant forall m :: m in r <==> m in neighbors[..i] && m !in visited
    {
      assert neighbors[..i + 1] == neighbors[..i] + [neighbors[i]];
      if neighbors[i] !in visited {
        r := r + [neighbors[i]];
      }
    }
    assert neighbors[..|neighbors|] == neighbors;
  }

  method FindComponent(edges: seq<Edge>, adj: Adjacency, start: Node, visited0: set<Node>)
    returns (component: seq<Node>, visited: set<Node>)
    requires IsAdjacency(edges, adj) && start in adj && start !in visited0
    requires forall n, m :: n in visited0 && Linked(edges, n, m) ==> m in visited0
    ensures Distinct(component) && start in component
    ensures forall n :: n in component <==> Connected(edges, start, n)
    ensures forall n :: n in component ==> n !in visited0
    ensures visited == visited0 + set n | n in component
  {
    component, visited := [], visited0;
    var queue := [start];
    ConnectedReflexive(edges, start);
    while |queue| > 0
      invariant SearchInvariant(edges, start, visited, queue, component)
      invariant visited == visited0 + set n | n in component
      invariant forall n :: n in component ==> n !in visited0
      decreases adj.Keys - visited, |queue|
    {
      var current := queue[0];
      assert current in queue;
      if current in visited {
        assert queue == [current] + queue[1..];
        queue := queue[1..];
        continue;
      }
      TextOrder();
      var neighbors := SortSet(TextLe, adj[current]);
      var added := Unvisited(neighbors, visited + {current});
      SearchStep(edges, start, visited, queue, component, added);
      visited := visited + {current};
      component := component + [current];
      queue := queue[1..] + added;
    }
    forall n, m | n in component && Linked(edges, n, m) ensures m in component {
      assert Linked(edges, m, n);
    }
    forall n | Connected(edges, start, n) ensures n in component {
      ClosedUnderLinks(edges, (set m | m in component), start, n);
    }
  }

  // ----- all components -----

  /** The members of one component, sorted. */
  ghost predicate IsCluster(edges: seq<Edge>, c: seq<Node>) {
    && |c| > 0 && StrictlySorted(TextLe, c)
    && (forall n :: n in c <==> Connected(edges, c[0], n))
  }

  ghost predicate InSome(clusters: seq<seq<Node>>, n: Node) {
    exists i :: 0 <= i < |clusters| && n in clusters[i]
  }

  /** Every cluster is a whole component, every endpoint is in one, and none occurs twice. */
  ghost predicate Clusters(edges: seq<Edge>, clusters: seq<seq<Node>>) {
    && (forall i :: 0 <= i < |clusters| ==> IsCluster(edges, clusters[i]))
    && (forall n {:trigger InSome(clusters, n)} :: Endpoint(edges, n) <==> InSome(clusters, n))
    && Distinct(clusters)
  }

  predicate AtLeastAsLarge(a: seq<Node>, b: seq<Node>) {
    |a| >= |b|
  }

  predicate SmallestMemberLe(a: seq<Node>, b: seq<Node>) {
    |a| > 0 && |b| > 0 && TextLe(a[0], b[0])
  }

  lemma ConnectedEndpoint(edges: seq<Edge>, a: Node, b: Node)
    requires Endpoint(edges, a) && Connected(edges, a, b)
    ensures Endpoint(edges, b)
  {
    var adj := Endpoints(edges);
    forall n, m | n in adj && Linked(edges, n, m) ensures m in adj {
      var e :| e in edges && e.kind == RELATES_TO
               && ((e.source == n && e.target == m) || (e.source == m && e.target == n));
    }
    ClosedUnderLinks(edges, adj, a, b);
  }

  ghost function Endpoints(edges: seq<Edge>): (s: set<Node>)
    ensures forall n :: n in s <==> Endpoint(edges, n)
  {
    (set e | e in edges && e.kind == RELATES_TO :: e.source) + (set e | e in edges && e.kind == RELATES_TO :: e.target)
  }

  /** Discovered so far, in discovery order: whole components, by increasing smallest member. */
  ghost predicate Discovered(edges: seq<Edge>, nodes: seq<Node>, k: nat, clusters: seq<seq<Node>>, visited: set<Node>)
    requires k <= |nodes|
  {
    && (forall i :: 0 <= i < |clusters| ==> IsCluster(edges, clusters[i]) && Endpoint(edges, clusters[i][0]))
    && (forall i, j :: 0 <= i < |clusters| && k <= j < |nodes| ==> TextLe(clusters[i][0], nodes[j]))
    && (forall n {:trigger InSome(clusters, n)} :: n in visited <==> InSome(clusters, n))
    && (forall j :: 0 <= j < k ==> nodes[j] in visited)
    && (forall i, j :: 0 <= i < j < |clusters| ==> clusters[i] != clusters[j] && SmallestMemberLe(clusters[i], clusters[j]))
  }

  lemma DiscoveredClosed(edges: seq<Edge>, nodes: seq<Node>, k: nat, clusters: seq<seq<Node>>, visited: set<Node>)
    requires k <= |nodes| && Discovered(edges, nodes, k, clusters, visited)
    ensures forall n, m :: n in visited && Linked(edges, n, m) ==> m in visited
  {
    forall n, m | n in visited && Linked(edges, n, m) ensures m in visited {
      assert InSome(clusters, n);
      var i :| 0 <= i < |clusters| && n in clusters[i];
      ConnectedStep(edges, clusters[i][0], n, m);
      assert m in clusters[i];
      assert InSome(clusters, m);
    }
  }

  /** The first unvisited node is the smallest member of its component. */
  lemma StartIsSmallest(edges: seq<Edge>, nodes: seq<Node>, k: nat, visited: set<Node>, c: seq<Node>)
    requires SortedListing(TextLe, Endpoints(edges), nodes) && k < |nodes|
    requires forall j :: 0 <= j < k ==> nodes[j] in visited
    requires StrictlySorted(TextLe, c) && (forall n :: n in c <==> Connected(edges, nodes[k], n))
    requires forall n :: n in c ==> n !in visited
    ensures |c| > 0 && c[0] == nodes[k]
  {
    TextOrder();
    var start := nodes[k];
    ConnectedReflexive(edges, start);
    assert start in c;
    assert start in nodes;
    assert c[0] in c;
    ConnectedEndpoint(edges, start, c[0]);
    assert c[0] in nodes;
    var i :| 0 <= i < |nodes| && nodes[i] == c[0];
    assert i >= k;
    assert TextLe(start, c[0]);
    var j :| 0 <= j < |c| && c[j] == start;
    assert TextLe(c[0], start);
  }

  lemma DiscoverNext(edges: seq<Edge>, nodes: seq<Node>, k: nat, clusters: seq<seq<Node>>, visited: set<Node>,
                     c: seq<Node>)
    requires SortedListing(TextLe, Endpoints(edges), nodes)
    requires k < |nodes| && Discovered(edges, nodes, k, clusters, visited)
    requires StrictlySorted(TextLe, c) && (forall n :: n in c <==> Connected(edges, nodes[k], n))
    requires forall n :: n in c ==> n !in visited
    ensures Discovered(edges, nodes, k + 1, clusters + [c], visited + set n | n in c)
  {
    StartIsSmallest(edges, nodes, k, visited, c);
    var more := clusters + [c];
    forall n ensures n in visited + (set m | m in c) <==> InSome(more, n) {
      assert n in visited <==> InSome(clusters, n);
      if i :| 0 <= i < |clusters| && n in clusters[i] {
        assert more[i] == clusters[i];
      }
      if n in c {
        assert more[|clusters|] == c;
      }
    }
    forall i | 0 <= i < |clusters| ensures clusters[i] != c && SmallestMemberLe(clusters[i], c) {
      assert c[0] in c;
      if clusters[i] == c {
        assert InSome(clusters, c[0]);
      }
    }
    TextOrder();
    assert forall j :: k + 1 <= j < |nodes| ==> TextLe(c[0], nodes[j]);
  }

  lemma SkipVisited(edges: seq<Edge>, nodes: seq<Node>, k: nat, clusters: seq<seq<Node>>, visited: set<Node>)
    requires k < |nodes| && Discovered(edges, nodes, k, clusters, visited) && nodes[k] in visited
    ensures Discovered(edges, nodes, k + 1, clusters, visited)
  {
  }

  lemma SortKeepsClusters(edges: seq<Edge>, nodes: seq<Node>, clusters: seq<seq<Node>>, visited: set<Node>)
    requires SortedListing(TextLe, Endpoints(edges), nodes)
    requires Discovered(edges, nodes, |nodes|, clusters, visited)
    ensures Clusters(edges, StableSort(AtLeastAsLarge, clusters))
    ensures TiesInOrder(AtLeastAsLarge, SmallestMemberLe, StableSort(AtLeastAsLarge, clusters))
  {
    var r := StableSort(AtLeastAsLarge, clusters);
    StableSortSorts(AtLeastAsLarge, clusters);
    StableSortBreaksTies(AtLeastAsLarge, SmallestMemberLe, clusters);
    SameElements(clusters, r);
    PermutationDistinct(clusters, r);
    forall i | 0 <= i < |r| ensures IsCluster(edges, r[i]) {
      assert r[i] in r;
    }
    forall n ensures Endpoint(edges, n) <==> InSome(r, n) {
      EndpointIffCovered(edges, nodes, clusters, visited, n);
      InSomePermutation(clusters, r, n);
    }
  }

  lemma InSomePermutation(xs: seq<seq<Node>>, ys: seq<seq<Node>>, n: Node)
    requires forall c :: c in xs <==> c in ys
    ensures InSome(xs, n) <==> InSome(ys, n)
  {
    if i :| 0 <= i < |xs| && n in xs[i] {
      assert xs[i] in ys;
    }
    if i :| 0 <= i < |ys| && n in ys[i] {
      assert ys[i] in xs;
    }
  }

  lemma EndpointIffCovered(edges: seq<Edge>, nodes: seq<Node>, clusters: seq<seq<Node>>, visited: set<Node>, n: Node)
    requires SortedListing(TextLe, Endpoints(edges), nodes)
    requires Discovered(edges, nodes, |nodes|, clusters, visited)
    ensures Endpoint(edges, n) <==> InSome(clusters, n)
  {
    assert n in visited <==> InSome(clusters, n);
    if Endpoint(edges, n) {
      assert n in nodes;
    }
    if InSome(clusters, n) {
      var i :| 0 <= i < |clusters| && n in clusters[i];
      ConnectedEndpoint(edges, clusters[i][0], n);
    }
  }

  lemma SameElements<T>(xs: seq<T>, ys: seq<T>)
    requires multiset(xs) == multiset(ys)
    ensures forall x :: x in xs <==> x in ys
  {
    forall x ensures x in xs <==> x in ys {
      assert x in xs <==> x in multiset(xs);
    }
  }

  lemma {:induction false} DistinctCount<T>(xs: seq<T>, x: T)
    requires Distinct(xs)
    ensures multiset(xs)[x] <= 1
  {
    if |xs| > 0 {
      assert xs == xs[..|xs| - 1] + [xs[|xs| - 1]];
      DistinctCount(xs[..|xs| - 1], x);
    }
  }

  lemma PermutationDistinct<T>(xs: seq<T>, ys: seq<T>)
    requires Distinct(xs) && multiset(xs) == multiset(ys)
    ensures Distinct(ys)
  {
    forall i, j | 0 <= i < j < |ys| ensures ys[i] != ys[j] {
      DistinctCount(xs, ys[j]);
      assert ys == ys[..j] + [ys[j]] + ys[j + 1..];
      assert ys[i] in ys[..j];
    }
  }

  /** One pass of the outer loop for a node not seen yet. */
  method ExtendClusters(edges: seq<Edge>, adj: Adjacency, nodes: seq<Node>, k: nat,
                        clusters0: seq<seq<Node>>, visited0: set<Node>)
    returns (clusters: seq<seq<Node>>, visited: set<Node>)
    requires IsAdjacency(edges, adj) && SortedListing(TextLe, Endpoints(edges), nodes)
    requires k < |nodes| && Discovered(edges, nodes, k, clusters0, visited0)
    requires nodes[k] in adj && nodes[k] !in visited0
    ensures Discovered(edges, nodes, k + 1, clusters, visited)
  {
    DiscoveredClosed(edges, nodes, k, clusters0, visited0);
    var component;
    component, visited := FindComponent(edges, adj, nodes[k], visited0);
    var cluster := SortTexts(set n | n in component);
    DiscoverNext(edges, nodes, k, clusters0, visited0, cluster);
    assert (set n | n in cluster) == (set n | n in component);
    clusters := clusters0 + [cluster];
  }

  /** By decreasing size, ties by the smallest member, the members of each ascending without repetition. */
  ghost predicate LargestFirst(clusters: seq<seq<Node>>) {
    && (forall i, j :: 0 <= i < j < |clusters| ==>
          || |clusters[i]| > |clusters[j]|
          || (|clusters[i]| == |clusters[j]| > 0 && TextLe(clusters[i][0], clusters[j][0])))
    && (forall i, a, b :: 0 <= i < |clusters| && 0 <= a < b < |clusters[i]| ==>
          TextLe(clusters[i][a], clusters[i][b]) && clusters[i][a] != clusters[i][b])
  }

  lemma ListedLargestFirst(edges: seq<Edge>, clusters: seq<seq<Node>>)
    requires Clusters(edges, clusters) && TiesInOrder(AtLeastAsLarge, SmallestMemberLe, clusters)
    ensures LargestFirst(clusters)
  {
    forall i, j | 0 <= i < j < |clusters|
      ensures || |clusters[i]| > |clusters[j]|
              || (|clusters[i]| == |clusters[j]| > 0 && TextLe(clusters[i][0], clusters[j][0])) {
      assert Before(AtLeastAsLarge, SmallestMemberLe, clusters[i], clusters[j]);
    }
    forall i, a, b | 0 <= i < |clusters| && 0 <= a < b < |clusters[i]|
      ensures TextLe(clusters[i][a], clusters[i][b]) && clusters[i][a] != clusters[i][b] {
      assert IsCluster(edges, clusters[i]);
    }
  }

  method FindRelatesToClusters(edges: seq<Edge>) returns (clusters: seq<seq<Node>>)
    ensures Clusters(edges, clusters)
    ensures TiesInOrder(AtLeastAsLarge, SmallestMemberLe, clusters)
    ensures forall n {:trigger InSome(clusters, n)} ::
              InSome(clusters, n) <==> exists e :: e in edges && e.kind == "relates_to" && (e.source == n || e.target == n)
    ensures LargestFirst(clusters)
  {
    var adj := BuildAdjacency(edges);
    assert adj.Keys == Endpoints(edges);
    var nodes := SortTexts(adj.Keys);
    var visited: set<Node> := {};
    clusters := [];
    for k := 0 to |nodes|
      invariant Discovered(edges, nodes, k, clusters, visited)
    {
      var node := nodes[k];
      if node in visited {
        SkipVisited(edges, nodes, k, clusters, visited);
        continue;
      }
      assert node in nodes;
      clusters, visited := ExtendClusters(edges, adj, nodes, k, clusters, visited);
    }
    SortKeepsClusters(edges, nodes, clusters, visited);
    clusters := StableSort(AtLeastAsLarge, clusters);
    ListedLargestFirst(edges, clusters);
  }

  lemma ConnectedTransitive(edges: seq<Edge>, a: Node, b: Node, c: Node)
    requires Connected(edges, a, b) && Connected(edges, b, c)
    ensures Connected(edges, a, c)
  {
    var v :| IsChain(edges, v) && v[0] == a && v[|v| - 1] == b;
    var w :| IsChain(edges, w) && w[0] == b && w[|w| - 1] == c;
    var u := v + w[1..];
    forall i | 0 <= i < |u| - 1 ensures Linked(edges, u[i], u[i + 1]) {
      if i < |v| - 1 {
        assert Linked(edges, v[i], v[i + 1]);
      } else {
        assert Linked(edges, w[i - |v| + 1], w[i - |v| + 1 + 1]);
      }
    }
    assert IsChain(edges, u) && u[0] == a && u[|u| - 1] == c;
  }

  lemma MembersConnected(edges: seq<Edge>, c: seq<Node>, a: Node, b: Node)
    requires IsCluster(edges, c) && a in c
    ensures b in c <==> Connected(edges, a, b)
  {
    ConnectedSymmetric(edges, c[0], a);
    if b in c {
      ConnectedTransitive(edges, a, c[0], b);
    }
    if Connected(edges, a, b) {
      ConnectedTransitive(edges, c[0], a, b);
    }
  }

  /** Two documents share a cluster exactly when they are connected, and no document is in two clusters. */
  lemma ClusterIffConnected(edges: seq<Edge>, clusters: seq<seq<Node>>)
    requires Clusters(edges, clusters)
    ensures forall i, a, b :: 0 <= i < |clusters| && a in clusters[i] ==> (b in clusters[i] <==> Connected(edges, a, b))
    ensures forall i, j, n :: 0 <= i < j < |clusters| && n in clusters[i] ==> n !in clusters[j]
  {
    forall i, a, b | 0 <= i < |clusters| && a in clusters[i] ensures b in clusters[i] <==> Connected(edges, a, b) {
      MembersConnected(edges, clusters[i], a, b);
    }
    forall i, j, n | 0 <= i < j < |clusters| && n in clusters[i] ensures n !in clusters[j] {
      if n in clusters[j] {
        forall x ensures x in clusters[i] <==> x in clusters[j] {
          MembersConnected(edges, clusters[i], n, x);
          MembersConnected(edges, clusters[j], n, x);
        }
        TextOrder();
        SortedListingUnique(TextLe, (set x | x in clusters[i]), clusters[i], clusters[j]);
      }
    }
  }
}
