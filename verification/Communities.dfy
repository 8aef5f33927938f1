/**
 Call-graph communities: endpoints are interned to dense indices, a clustering
 kernel labels every index, and the classes are collected through hash maps,
 labelled by their dominant module and sorted.  The clustering is an arbitrary
 assignment, and hash maps are walked in an arbitrary order.
 */
module Communities {
  import opened Sorting

  datatype Node = Node(id: string, name: string, modulePath: string)
  datatype Edge = Edge(source: Node, target: Node, weight: real)
  datatype Member = Member(name: string, modulePath: string)
  datatype Community = Community(title: string, size: nat, members: seq<Member>)

  // ---- The orders of the comparators ----

  // Members inside a community: by module, then name.
  predicate ModuleFirst(a: Member, b: Member) {
    if a.modulePath == b.modulePath then StrLeq(a.name, b.name) else StrLeq(a.modulePath, b.modulePath)
  }

  // The derived order: by name, then module.
  predicate NameFirst(a: Member, b: Member) {
    if a.name == b.name then StrLeq(a.modulePath, b.modulePath) else StrLeq(a.name, b.name)
  }

  // Larger communities first, then by label, then by member list.
  predicate CommunityLeq(a: Community, b: Community) {
    if a.size != b.size then a.size > b.size
    else if a.title != b.title then StrLeq(a.title, b.title)
    else LexLeq(NameFirst, a.members, b.members)
  }

  lemma MemberOrders()
    ensures TotalOrder(ModuleFirst) && TotalOrder(NameFirst)
  {
    StrOrder();
  }

  /** Two communities the comparator cannot tell apart are equal. */
  lemma CommunityOrder()
    ensures TotalOrder(CommunityLeq)
  {
    StrOrder();
    MemberOrders();
    forall a, b
      ensures (CommunityLeq(a, b) || CommunityLeq(b, a)) && (CommunityLeq(a, b) && CommunityLeq(b, a) ==> a == b)
    {
      LexConnected(NameFirst, a.members, b.members);
    }
    forall a, b, c | CommunityLeq(a, b) && CommunityLeq(b, c) ensures CommunityLeq(a, c) {
      if a.size == b.size == c.size && a.title == b.title == c.title {
        LexTransitive(NameFirst, a.members, b.members, c.members);
      }
    }
  }

  // ---- Interning ----

  function Endpoints(edges: seq<Edge>): seq<Node> {
    if edges == [] then []
    else Endpoints(edges[..|edges| - 1]) + [edges[|edges| - 1].source, edges[|edges| - 1].target]
  }

  predicate Seen(nodes: seq<Node>, id: string) { exists i :: 0 <= i < |nodes| && nodes[i].id == id }

  // The first occurrence of every id, in order of appearance.
  function FirstSeen(nodes: seq<Node>): seq<Node> {
    if nodes == [] then [] else
    var n := |nodes| - 1;
    var before := FirstSeen(nodes[..n]);
    if Seen(before, nodes[n].id) then before else before + [nodes[n]]
  }

  function MemberOf(node: Node): Member { Member(node.name, node.modulePath) }

  ghost predicate DistinctIds(nodes: seq<Node>) {
    forall i, j :: 0 <= i < j < |nodes| ==> nodes[i].id != nodes[j].id
  }

  // The node stands in the list before any other with its id.
  ghost predicate IsFirst(nodes: seq<Node>, node: Node) {
    exists k :: 0 <= k < |nodes| && nodes[k] == node && !Seen(nodes[..k], node.id)
  }

  lemma FirstStays(nodes: seq<Node>, node: Node, last: Node)
    requires IsFirst(nodes, node)
    ensures IsFirst(nodes + [last], node)
  {
    var all := nodes + [last];
    var k :| 0 <= k < |nodes| && nodes[k] == node && !Seen(nodes[..k], node.id);
    assert all[k] == node && all[..k] == nodes[..k];
  }

  lemma LastIsFirst(nodes: seq<Node>, last: Node)
    requires !Seen(nodes, last.id)
    ensures IsFirst(nodes + [last], last)
  {
    var all := nodes + [last];
    assert all[|nodes|] == last && all[..|nodes|] == nodes;
  }

  /** Interning keeps exactly one node per distinct id, the first one. */
  lemma {:induction false} FirstSeenFacts(nodes: seq<Node>)
    ensures DistinctIds(FirstSeen(nodes))
    ensures forall id :: Seen(FirstSeen(nodes), id) <==> Seen(nodes, id)
    ensures forall i :: 0 <= i < |FirstSeen(nodes)| ==> IsFirst(nodes, FirstSeen(nodes)[i])
  {
    if nodes != [] {
      var n := |nodes| - 1;
      var front, last := nodes[..n], nodes[n];
      assert nodes == front + [last];
      FirstSeenFacts(front);
      FirstSeenNext(front, last);
    }
  }

  lemma FirstSeenNext(front: seq<Node>, last: Node)
    requires var before := FirstSeen(front);
      && DistinctIds(before) && (forall id :: Seen(before, id) <==> Seen(front, id))
      && forall i :: 0 <= i < |before| ==> IsFirst(front, before[i])
    ensures var nodes, after := front + [last], FirstSeen(front + [last]);
      && DistinctIds(after) && (forall id :: Seen(after, id) <==> Seen(nodes, id))
      && forall i :: 0 <= i < |after| ==> IsFirst(nodes, after[i])
  {
    var before, nodes, after := FirstSeen(front), front + [last], FirstSeen(front + [last]);
    FirstSeenAppend(front, last);
    hide FirstSeen, IsFirst;
    forall id ensures Seen(after, id) <==> Seen(nodes, id) {
      SeenAppend(front, last, id);
      SeenAppend(before, last, id);
    }
    forall i | 0 <= i < |after| ensures IsFirst(nodes, after[i]) {
      if i < |before| { FirstStays(front, before[i], last); } else { LastIsFirst(front, last); }
    }
  }

  ghost function Ids(nodes: seq<Node>): set<string> {
    set i | 0 <= i < |nodes| :: nodes[i].id
  }

  lemma {:induction false} DistinctIdsCount(nodes: seq<Node>)
    requires DistinctIds(nodes)
    ensures |Ids(nodes)| == |nodes|
  {
    if nodes != [] {
      var n := |nodes| - 1;
      DistinctIdsCount(nodes[..n]);
      assert Ids(nodes) == Ids(nodes[..n]) + {nodes[n].id};
      assert nodes[n].id !in Ids(nodes[..n]);
    }
  }

  /** There are as many interned nodes as distinct endpoint ids. */
  lemma FirstSeenCount(nodes: seq<Node>)
    ensures |FirstSeen(nodes)| == |Ids(nodes)|
  {
    FirstSeenFacts(nodes);
    DistinctIdsCount(FirstSeen(nodes));
    forall id ensures id in Ids(FirstSeen(nodes)) <==> id in Ids(nodes) {
      assert Seen(FirstSeen(nodes), id) <==> Seen(nodes, id);
    }
    assert Ids(FirstSeen(nodes)) == Ids(nodes);
  }

  lemma SeenAppend(nodes: seq<Node>, node: Node, id: string)
    ensures Seen(nodes + [node], id) <==> Seen(nodes, id) || node.id == id
  {
    var all := nodes + [node];
    if Seen(nodes, id) {
      var i :| 0 <= i < |nodes| && nodes[i].id == id;
      assert all[i].id == id;
    }
    if node.id == id { assert all[|nodes|].id == id; }
  }

  // Index i of `nodes` is the node with this id.
  ghost predicate At(nodes: seq<Node>, i: nat, id: string) { i < |nodes| && nodes[i].id == id }

  ghost predicate Indexes(index: map<string, nat>, nodes: seq<Node>) {
    && (forall id :: id in index ==> At(nodes, index[id], id))
    && (forall i: nat, id :: At(nodes, i, id) ==> id in index && index[id] == i)
  }

  lemma IndexSeen(index: map<string, nat>, nodes: seq<Node>, id: string)
    requires Indexes(index, nodes)
    ensures id in index <==> Seen(nodes, id)
  {
    if Seen(nodes, id) {
      var i :| 0 <= i < |nodes| && nodes[i].id == id;
      assert At(nodes, i, id);
    }
    if id in index { assert At(nodes, index[id], id); }
  }

  lemma FirstSeenAppend(nodes: seq<Node>, node: Node)
    ensures FirstSeen(nodes + [node]) ==
      if Seen(FirstSeen(nodes), node.id) then FirstSeen(nodes) else FirstSeen(nodes) + [node]
  {
    assert (nodes + [node])[..|nodes|] == nodes;
  }

  // The maps after interning a node that is new.
  lemma InternNew(index: map<string, nat>, nodes: seq<Node>, node: Node)
    requires Indexes(index, nodes) && node.id !in index
    ensures Indexes(index[node.id := |nodes|], nodes + [node])
  {
    var index', nodes' := index[node.id := |nodes|], nodes + [node];
    forall id | id in index' ensures At(nodes', index'[id], id) {
      if id != node.id { assert At(nodes, index[id], id); }
    }
    forall i: nat, id | At(nodes', i, id) ensures id in index' && index'[id] == i {
      if i < |nodes| { assert At(nodes, i, id); }
    }
  }

  lemma MembersAppend(nodes: seq<Node>, node: Node)
    ensures Map(MemberOf, nodes + [node]) == Map(MemberOf, nodes) + [Member(node.name, node.modulePath)]
  {
  }

  lemma AtGrows(nodes: seq<Node>, nodes': seq<Node>, i: nat, id: string)
    requires At(nodes, i, id) && nodes <= nodes'
    ensures At(nodes', i, id)
  {
    assert nodes'[i] == nodes[i];
  }

  class Interner {
    var index: map<string, nat>
    var meta: seq<Member>
    ghost var nodes: seq<Node>  // every endpoint interned so far
    ghost var first: seq<Node>

    ghost predicate Valid()
      reads this
    {
      first == FirstSeen(nodes) && Indexes(index, first) && meta == Map(MemberOf, first)
    }

    constructor ()
      ensures Valid() && nodes == []
    {
      index, meta, nodes, first := map[], [], [], [];
    }

    method Intern(node: Node) returns (i: nat)
      requires Valid()
      modifies this
      ensures Valid() && nodes == old(nodes) + [node]
      ensures At(first, i, node.id) && old(first) <= first
    {
      FirstSeenAppend(nodes, node);
      IndexSeen(index, first, node.id);
      nodes := nodes + [node];
      if node.id in index {
        assert At(first, index[node.id], node.id);
        return index[node.id];
      }
      InternNew(index, first, node);
      MembersAppend(first, node);
      i := |meta|;
      index := index[node.id := i];
      meta := meta + [Member(node.name, node.modulePath)];
      first := first + [node];
    }

    method InternEdge(e: Edge) returns (s: nat, t: nat)
      requires Valid()
      modifies this
      ensures Valid() && nodes == old(nodes) + [e.source, e.target] && old(first) <= first
      ensures At(first, s, e.source.id) && At(first, t, e.target.id)
    {
      hide FirstSeen, Indexes, Map;
      s := Intern(e.source);
      ghost var between := first;
      t := Intern(e.target);
      AtGrows(between, first, s, e.source.id);
    }
  }

  // An edge between interned nodes.
  datatype IndexEdge = IndexEdge(source: nat, target: nat, weight: real)

  // The first edges, as edges between indices into `nodes`.
  ghost predicate IndexedOk(nodes: seq<Node>, edges: seq<Edge>, indexed: seq<IndexEdge>) {
    |indexed| <= |edges| &&
    forall i :: 0 <= i < |indexed| ==> IndexesEdge(nodes, edges[i], indexed[i])
  }

  ghost predicate IndexesEdge(nodes: seq<Node>, e: Edge, x: IndexEdge) {
    At(nodes, x.source, e.source.id) && At(nodes, x.target, e.target.id) && x.weight == e.weight
  }

  lemma IndexedGrows(nodes: seq<Node>, nodes': seq<Node>, edges: seq<Edge>, indexed: seq<IndexEdge>, x: IndexEdge)
    requires IndexedOk(nodes, edges, indexed) && nodes <= nodes' && |indexed| < |edges|
    requires IndexesEdge(nodes', edges[|indexed|], x)
    ensures IndexedOk(nodes', edges, indexed + [x])
  {
    forall i | 0 <= i < |indexed| ensures IndexesEdge(nodes', edges[i], indexed[i]) {
      AtGrows(nodes, nodes', indexed[i].source, edges[i].source.id);
      AtGrows(nodes, nodes', indexed[i].target, edges[i].target.id);
    }
  }

  method InternEdges(edges: seq<Edge>) returns (meta: seq<Member>, indexed: seq<IndexEdge>)
    ensures meta == Map(MemberOf, FirstSeen(Endpoints(edges)))
    ensures forall i :: 0 <= i < |meta| ==>
      && meta[i].name == FirstSeen(Endpoints(edges))[i].name
      && meta[i].modulePath == FirstSeen(Endpoints(edges))[i].modulePath
    ensures |indexed| == |edges| && IndexedOk(FirstSeen(Endpoints(edges)), edges, indexed)
  {
    hide FirstSeen, Indexes, Map, IndexesEdge;
    var interner := new Interner();
    indexed := [];
    for i := 0 to |edges|
      invariant fresh(interner) && interner.Valid() && interner.nodes == Endpoints(edges[..i])
      invariant |indexed| == i && IndexedOk(interner.first, edges, indexed)
    {
      assert edges[..i + 1][..i] == edges[..i];
      ghost var before := interner.first;
      var s, t := interner.InternEdge(edges[i]);
      IndexedGrows(before, interner.first, edges, indexed, IndexEdge(s, t, edges[i].weight));
      indexed := indexed + [IndexEdge(s, t, edges[i].weight)];
    }
    assert edges[..|edges|] == edges;
    meta := interner.meta;
  }

  // ---- The dominant module ----

  function Count(members: seq<Member>, path: string): nat {
    if members == [] then 0 else
    Count(members[..|members| - 1], path) + if members[|members| - 1].modulePath == path then 1 else 0
  }

  // More members, or as many and an earlier path.
  predicate Better(members: seq<Member>, a: string, b: string) {
    Count(members, a) > Count(members, b) || (Count(members, a) == Count(members, b) && StrLeq(a, b))
  }

  ghost predicate IsDominant(members: seq<Member>, path: string) {
    && (exists i :: 0 <= i < |members| && members[i].modulePath == path)
    && forall i :: 0 <= i < |members| ==> Better(members, path, members[i].modulePath)
  }

  /** The dominant module is unique, so no iteration order can change it. */
  lemma DominantUnique(members: seq<Member>, a: string, b: string)
    requires IsDominant(members, a) && IsDominant(members, b)
    ensures a == b
  {
    StrOrder();
    var i :| 0 <= i < |members| && members[i].modulePath == a;
    var j :| 0 <= j < |members| && members[j].modulePath == b;
    assert Better(members, a, members[j].modulePath) && Better(members, b, members[i].modulePath);
  }

  function BestOf(members: seq<Member>, k: nat): string
    requires 0 < k <= |members|
  {
    var x := members[k - 1].modulePath;
    if k == 1 then x
    else if Better(members, x, BestOf(members, k - 1)) then x
    else BestOf(members, k - 1)
  }

  function Dominant(members: seq<Member>): string {
    if members == [] then "" else BestOf(members, |members|)
  }

  lemma {:induction false} BestIsBest(members: seq<Member>, k: nat)
    requires 0 < k <= |members|
    ensures exists i :: 0 <= i < k && members[i].modulePath == BestOf(members, k)
    ensures forall i :: 0 <= i < k ==> Better(members, BestOf(members, k), members[i].modulePath)
  {
    StrOrder();
    assert members[k - 1].modulePath == BestOf(members, k) || k > 1;
    if k > 1 { BestIsBest(members, k - 1); }
  }

  method DominantModule(members: seq<Member>) returns (best: string)
    ensures best == Dominant(members)
    ensures members != [] ==> IsDominant(members, best)
  {
    var counts: map<string, nat> := map[];
    for i := 0 to |members|
      invariant forall p :: p in counts <==> exists j :: 0 <= j < i && members[j].modulePath == p
      invariant forall p :: p in counts ==> counts[p] == Count(members[..i], p)
      invariant forall p :: p !in counts ==> Count(members[..i], p) == 0
    {
      assert members[..i + 1][..i] == members[..i];
      var p := members[i].modulePath;
      counts := counts[p := (if p in counts then counts[p] else 0) + 1];
    }
    assert members[..|members|] == members;
    best := PickBest(members, counts);
    if members != [] {
      BestIsBest(members, |members|);
      assert IsDominant(members, Dominant(members));
      DominantUnique(members, best, Dominant(members));
    }
  }

  // `max_by` over the counts, walked in any order.
  method PickBest(members: seq<Member>, counts: map<string, nat>) returns (best: string)
    requires forall p :: p in counts <==> exists j :: 0 <= j < |members| && members[j].modulePath == p
    requires forall p :: p in counts ==> counts[p] == Count(members, p)
    ensures members != [] ==> IsDominant(members, best)
    ensures members == [] ==> best == ""
  {
    StrOrder();
    best := "";
    var found := false;
    var todo := counts.Keys;
    while todo != {}
      invariant todo <= counts.Keys
      invariant found <==> todo != counts.Keys
      invariant found ==> best in counts && forall p :: p in counts && p !in todo ==> Better(members, best, p)
      invariant !found ==> best == ""
      decreases todo
    {
      var p :| p in todo;
      todo := todo - {p};
      if !found || counts[p] > counts[best] || (counts[p] == counts[best] && StrLeq(p, best)) {
        best := p;
      }
      found := true;
    }
    if members != [] {
      assert members[0].modulePath in counts;
      forall i | 0 <= i < |members| ensures Better(members, best, members[i].modulePath) {
        assert members[i].modulePath in counts;
      }
    } else {
      assert counts == map[];
    }
  }

  // ---- Classes of an assignment ----

  // Positions labelled c, ascending, and what they hold.
  function Class(assign: seq<nat>, c: nat): seq<nat> {
    if assign == [] then [] else
    var n := |assign| - 1;
    Class(assign[..n], c) + if assign[n] == c then [n] else []
  }

  function Bucket(meta: seq<Member>, assign: seq<nat>, c: nat): seq<Member>
    requires |meta| == |assign|
  {
    if assign == [] then [] else
    var n := |assign| - 1;
    Bucket(meta[..n], assign[..n], c) + if assign[n] == c then [meta[n]] else []
  }

  lemma {:induction false} ClassIsBucket(meta: seq<Member>, assign: seq<nat>, c: nat)
    requires |meta| == |assign|
    ensures |Class(assign, c)| == |Bucket(meta, assign, c)|
    ensures forall k :: 0 <= k < |Class(assign, c)| ==>
      Class(assign, c)[k] < |meta| && Bucket(meta, assign, c)[k] == meta[Class(assign, c)[k]]
  {
    if assign != [] { ClassIsBucket(meta[..|assign| - 1], assign[..|assign| - 1], c); }
  }

  // First position of every class.
  function Reps(assign: seq<nat>): seq<nat> {
    if assign == [] then [] else
    var n := |assign| - 1;
    Reps(assign[..n]) + if assign[n] in assign[..n] then [] else [n]
  }

  // The distinct labels, in order of first appearance.
  function Labels(assign: seq<nat>): seq<nat> {
    if assign == [] then [] else
    var n := |assign| - 1;
    Labels(assign[..n]) + if assign[n] in assign[..n] then [] else [assign[n]]
  }

  lemma {:induction false} LabelsFacts(assign: seq<nat>)
    ensures forall c :: c in Labels(assign) <==> c in assign
    ensures Distinct(Labels(assign))
  {
    if assign != [] {
      var n := |assign| - 1;
      LabelsFacts(assign[..n]);
      assert assign == assign[..n] + [assign[n]];
    }
  }

  lemma {:induction false} RepsAreLabels(assign: seq<nat>)
    ensures |Reps(assign)| == |Labels(assign)|
    ensures forall k :: 0 <= k < |Reps(assign)| ==>
      Reps(assign)[k] < |assign| && assign[Reps(assign)[k]] == Labels(assign)[k]
  {
    if assign != [] {
      var n := |assign| - 1;
      RepsAreLabels(assign[..n]);
    }
  }

  // ---- The report ----

  function BuildCommunity(members: seq<Member>): Community {
    var sorted := Sort(ModuleFirst, members);
    Community(Dominant(sorted), |sorted|, sorted)
  }

  // The community of the class labelled c, and of the class of position i.
  function ForLabel(meta: seq<Member>, assign: seq<nat>, c: nat): Community
    requires |meta| == |assign|
  {
    BuildCommunity(Bucket(meta, assign, c))
  }

  function ForPosition(meta: seq<Member>, assign: seq<nat>, i: nat): Community
    requires |meta| == |assign|
  {
    if i < |assign| then ForLabel(meta, assign, assign[i]) else BuildCommunity([])
  }

  // The communities of the given labels.
  function Listed(meta: seq<Member>, assign: seq<nat>, labels: seq<nat>): (cs: seq<Community>)
    requires |meta| == |assign|
    ensures |cs| == |labels| && forall k :: 0 <= k < |labels| ==> cs[k] == ForLabel(meta, assign, labels[k])
  {
    Map(c => ForLabel(meta, assign, c), labels)
  }

  function Canonical(meta: seq<Member>, assign: seq<nat>): seq<Community>
    requires |meta| == |assign|
  {
    Sort(CommunityLeq, Map(i => ForPosition(meta, assign, i), Reps(assign)))
  }

  lemma CanonicalByLabels(meta: seq<Member>, assign: seq<nat>, order: seq<nat>)
    requires |meta| == |assign| && Distinct(order) && forall c :: c in order <==> c in assign
    ensures Sort(CommunityLeq, Listed(meta, assign, order)) == Canonical(meta, assign)
  {
    var f := (c: nat) => ForLabel(meta, assign, c);
    var g := (i: nat) => ForPosition(meta, assign, i);
    LabelsFacts(assign);
    RepsAreLabels(assign);
    DistinctMultiset(order, Labels(assign));
    MapMultiset(f, order, Labels(assign));
    assert Map(f, Labels(assign)) == Map(g, Reps(assign));
    assert Map(f, order) == Listed(meta, assign, order);
    CommunityOrder();
    SortCanonical(CommunityLeq, Map(f, order), Map(f, Labels(assign)));
  }

  // One bucket per id among the labels, holding its positions.
  ghost predicate Bucketed(buckets: map<nat, seq<nat>>, assign: seq<nat>) {
    && (forall c :: c in buckets <==> c in assign)
    && (forall c :: c in buckets ==> buckets[c] == Class(assign, c))
    && (forall c :: c !in buckets ==> Class(assign, c) == [])
  }

  lemma NoBuckets()
    ensures Bucketed(map[], [])
  {
  }

  lemma BucketsHold(buckets: map<nat, seq<nat>>, assign: seq<nat>)
    requires Bucketed(buckets, assign)
    ensures (forall c :: c in buckets <==> c in assign) && forall c :: c in buckets ==> buckets[c] == Class(assign, c)
  {
  }

  lemma ClassAppend(assign: seq<nat>, x: nat, c: nat)
    ensures Class(assign + [x], c) == Class(assign, c) + if x == c then [|assign|] else []
  {
    assert (assign + [x])[..|assign|] == assign;
  }

  lemma BucketedAppend(buckets: map<nat, seq<nat>>, assign: seq<nat>, x: nat)
    requires Bucketed(buckets, assign)
    ensures Bucketed(buckets[x := (if x in buckets then buckets[x] else []) + [|assign|]], assign + [x])
  {
    hide Class;
    forall c: nat ensures Class(assign + [x], c) == Class(assign, c) + if x == c then [|assign|] else [] {
      ClassAppend(assign, x, c);
    }
  }

  method Buckets(assign: seq<nat>) returns (buckets: map<nat, seq<nat>>)
    ensures forall c :: c in buckets <==> c in assign
    ensures forall c :: c in buckets ==> buckets[c] == Class(assign, c)
  {
    hide Bucketed, Class;
    buckets := map[];
    NoBuckets();
    assert assign[..0] == [];
    for i := 0 to |assign|
      invariant Bucketed(buckets, assign[..i])
    {
      BucketedAppend(buckets, assign[..i], assign[i]);
      assert assign[..i + 1] == assign[..i] + [assign[i]];
      var c := assign[i];
      buckets := buckets[c := (if c in buckets then buckets[c] else []) + [i]];
    }
    assert assign[..|assign|] == assign;
    BucketsHold(buckets, assign);
  }

  method CollectMembers(meta: seq<Member>, idxs: seq<nat>) returns (members: seq<Member>)
    requires forall k :: 0 <= k < |idxs| ==> idxs[k] < |meta|
    ensures |members| == |idxs| && forall k :: 0 <= k < |idxs| ==> members[k] == meta[idxs[k]]
  {
    members := [];
    for k := 0 to |idxs|
      invariant |members| == k && forall j :: 0 <= j < k ==> members[j] == meta[idxs[j]]
    {
      members := members + [meta[idxs[k]]];
    }
  }

  method CommunityOfClass(meta: seq<Member>, assign: seq<nat>, c: nat, idxs: seq<nat>) returns (community: Community)
    requires |meta| == |assign| && idxs == Class(assign, c)
    ensures community == ForLabel(meta, assign, c)
  {
    ClassIsBucket(meta, assign, c);
    var members := CollectMembers(meta, idxs);
    assert members == Bucket(meta, assign, c);
    members := Sort(ModuleFirst, members);
    var best := DominantModule(members);
    return Community(best, |members|, members);
  }

  lemma ListedAppend(meta: seq<Member>, assign: seq<nat>, order: seq<nat>, c: nat)
    requires |meta| == |assign|
    ensures Listed(meta, assign, order + [c]) == Listed(meta, assign, order) + [ForLabel(meta, assign, c)]
  {
  }

  ghost predicate ListsAll(meta: seq<Member>, assign: seq<nat>, communities: seq<Community>, order: seq<nat>)
    requires |meta| == |assign|
  {
    Distinct(order) && (forall c :: c in order <==> c in assign) && communities == Listed(meta, assign, order)
  }

  // The buckets are walked in some order, each once.
  method ListCommunities(meta: seq<Member>, assign: seq<nat>, buckets: map<nat, seq<nat>>)
    returns (communities: seq<Community>)
    requires |meta| == |assign| && forall c :: c in buckets <==> c in assign
    requires forall c :: c in buckets ==> buckets[c] == Class(assign, c)
    ensures exists order :: ListsAll(meta, assign, communities, order)
  {
    communities := [];
    ghost var order: seq<nat> := [];
    var todo := buckets.Keys;
    while todo != {}
      invariant todo <= buckets.Keys
      invariant Distinct(order) && forall c :: c in order <==> c in buckets && c !in todo
      invariant communities == Listed(meta, assign, order)
      decreases todo
    {
      var c :| c in todo;
      todo := todo - {c};
      var community := CommunityOfClass(meta, assign, c, buckets[c]);
      ListedAppend(meta, assign, order, c);
      communities, order := communities + [community], order + [c];
    }
    assert ListsAll(meta, assign, communities, order);
  }

  ghost predicate SamePartition(a: seq<nat>, b: seq<nat>) {
    |a| == |b| && forall i, j :: 0 <= i < |a| && 0 <= j < |a| ==> (a[i] == a[j] <==> b[i] == b[j])
  }

  lemma {:induction false} SameReps(a: seq<nat>, b: seq<nat>)
    requires SamePartition(a, b)
    ensures Reps(a) == Reps(b)
  {
    if a != [] {
      var n := |a| - 1;
      SameReps(a[..n], b[..n]);
      assert a[n] in a[..n] <==> b[n] in b[..n] by {
        if a[n] in a[..n] {
          var j :| 0 <= j < n && a[..n][j] == a[n];
          assert a[j] == a[n] && b[..n][j] == b[n];
        }
        if b[n] in b[..n] {
          var j :| 0 <= j < n && b[..n][j] == b[n];
          assert b[j] == b[n] && a[..n][j] == a[n];
        }
      }
    }
  }

  lemma {:induction false} SameBuckets(meta: seq<Member>, a: seq<nat>, b: seq<nat>, c: nat, d: nat)
    requires |meta| == |a| == |b| && forall j :: 0 <= j < |a| ==> (a[j] == c <==> b[j] == d)
    ensures Bucket(meta, a, c) == Bucket(meta, b, d)
  {
    if a != [] {
      var n := |a| - 1;
      SameBuckets(meta[..n], a[..n], b[..n], c, d);
    }
  }

  /** Renaming the community ids does not change the report. */
  lemma CanonicalIgnoresIds(meta: seq<Member>, a: seq<nat>, b: seq<nat>)
    requires |meta| == |a| && SamePartition(a, b)
    ensures Canonical(meta, a) == Canonical(meta, b)
  {
    SameReps(a, b);
    RepsAreLabels(a);
    var f := (i: nat) => ForPosition(meta, a, i);
    var g := (i: nat) => ForPosition(meta, b, i);
    forall k | 0 <= k < |Reps(a)| ensures f(Reps(a)[k]) == g(Reps(a)[k]) {
      var i := Reps(a)[k];
      SameBuckets(meta, a, b, a[i], b[i]);
    }
    assert Map(f, Reps(a)) == Map(g, Reps(b));
  }

  // ---- The report is a partition ----

  ghost function AllMembers(cs: seq<Community>): multiset<Member> {
    if cs == [] then multiset{} else AllMembers(cs[1..]) + multiset(cs[0].members)
  }

  function TotalSize(cs: seq<Community>): nat {
    if cs == [] then 0 else TotalSize(cs[1..]) + cs[0].size
  }

  lemma {:induction false} AllMembersPermute(a: seq<Community>, b: seq<Community>)
    requires multiset(a) == multiset(b)
    ensures AllMembers(a) == AllMembers(b)
  {
    assert |a| == |multiset(a)| == |multiset(b)| == |b|;
    if a != [] {
      var i := TakeOut(a, b);
      AllMembersPermute(a[1..], b[..i] + b[i + 1..]);
      AllMembersAt(b, i);
    }
  }

  lemma {:induction false} AllMembersAt(b: seq<Community>, i: nat)
    requires i < |b|
    ensures AllMembers(b) == AllMembers(b[..i] + b[i + 1..]) + multiset(b[i].members)
  {
    if i == 0 {
      assert b[..0] + b[1..] == b[1..];
    } else {
      AllMembersAt(b[1..], i - 1);
      assert (b[..i] + b[i + 1..])[1..] == b[1..][..i - 1] + b[1..][i..];
    }
  }

  // Adding one node adds its member to the one class that has its label.
  lemma {:induction false} OneMoreNode(meta: seq<Member>, assign: seq<nat>, labels: seq<nat>)
    requires |meta| == |assign| > 0 && Distinct(labels)
    ensures var n := |assign| - 1;
      AllMembers(Listed(meta, assign, labels)) ==
        AllMembers(Listed(meta[..n], assign[..n], labels)) +
        if assign[n] in labels then multiset{meta[n]} else multiset{}
  {
    var n := |assign| - 1;
    if labels != [] {
      hide ForLabel;
      OneMoreNode(meta, assign, labels[1..]);
      assert Listed(meta, assign, labels)[1..] == Listed(meta, assign, labels[1..]);
      assert Listed(meta[..n], assign[..n], labels)[1..] == Listed(meta[..n], assign[..n], labels[1..]);
      OneMoreMember(meta, assign, labels[0]);
      assert labels[0] !in labels[1..];
    }
  }

  lemma OneMoreMember(meta: seq<Member>, assign: seq<nat>, c: nat)
    requires |meta| == |assign| > 0
    ensures var n := |assign| - 1;
      multiset(ForLabel(meta, assign, c).members) ==
        multiset(ForLabel(meta[..n], assign[..n], c).members) + if assign[n] == c then multiset{meta[n]} else multiset{}
  {
    var n := |assign| - 1;
    MemberOrders();
    SortSorts(ModuleFirst, Bucket(meta, assign, c));
    SortSorts(ModuleFirst, Bucket(meta[..n], assign[..n], c));
    hide Sort, ModuleFirst;
    var before := Bucket(meta[..n], assign[..n], c);
    assert multiset(before + [meta[n]]) == multiset(before) + multiset{meta[n]};
    assert before + [] == before;
  }

  lemma CoverStep(meta: seq<Member>, assign: seq<nat>, labels: seq<nat>, n: nat)
    requires |meta| == |assign| == n + 1 && Distinct(labels) && assign[n] in labels
    requires AllMembers(Listed(meta[..n], assign[..n], labels)) == multiset(meta[..n])
    ensures AllMembers(Listed(meta, assign, labels)) == multiset(meta)
  {
    OneMoreNode(meta, assign, labels);
    LastMultiset(meta, n);
  }

  lemma LastMultiset<T>(s: seq<T>, n: nat)
    requires |s| == n + 1
    ensures multiset(s) == multiset(s[..n]) + multiset{s[n]}
  {
    assert s == s[..n] + [s[n]];
  }

  ghost predicate Covers(labels: seq<nat>, assign: seq<nat>) { forall i :: 0 <= i < |assign| ==> assign[i] in labels }

  lemma {:induction false} LabelsCoverMeta(meta: seq<Member>, assign: seq<nat>, labels: seq<nat>)
    requires |meta| == |assign| && Distinct(labels) && Covers(labels, assign)
    ensures AllMembers(Listed(meta, assign, labels)) == multiset(meta)
    decreases |meta|
  {
    if |meta| == 0 {
      NoMembers(meta, assign, labels);
    } else {
      var n := |meta| - 1;
      LabelsCoverMeta(meta[..n], assign[..n], labels);
      CoverStep(meta, assign, labels, n);
    }
  }

  lemma {:induction false} NoMembers(meta: seq<Member>, assign: seq<nat>, labels: seq<nat>)
    requires |meta| == |assign| == 0
    ensures AllMembers(Listed(meta, assign, labels)) == multiset{}
    decreases |labels|
  {
    if labels != [] {
      NoMembers(meta, assign, labels[1..]);
      assert Listed(meta, assign, labels)[1..] == Listed(meta, assign, labels[1..]);
      assert Listed(meta, assign, labels)[0].members == [];
    }
  }

  lemma {:induction false} SizesAreMembers(cs: seq<Community>)
    requires forall c :: c in cs ==> c.size == |c.members|
    ensures TotalSize(cs) == |AllMembers(cs)|
  {
    if cs != [] { SizesAreMembers(cs[1..]); }
  }

  lemma {:induction false} BucketNotEmpty(meta: seq<Member>, assign: seq<nat>, i: nat)
    requires |meta| == |assign| && i < |assign|
    ensures Bucket(meta, assign, assign[i]) != []
  {
    if i < |assign| - 1 { BucketNotEmpty(meta[..|assign| - 1], assign[..|assign| - 1], i); }
  }

  lemma ListedSizes(meta: seq<Member>, assign: seq<nat>, c: nat)
    requires |meta| == |assign| && c in assign
    ensures var com := ForLabel(meta, assign, c); com.size == |com.members| > 0
  {
    var i :| 0 <= i < |assign| && assign[i] == c;
    BucketNotEmpty(meta, assign, i);
    MemberOrders();
    var bucket := Bucket(meta, assign, c);
    SortSorts(ModuleFirst, bucket);
    assert |Sort(ModuleFirst, bucket)| == |multiset(Sort(ModuleFirst, bucket))| == |multiset(bucket)| == |bucket|;
  }

  // Every listed community carries its size and is not empty.
  lemma ListedNotEmpty(meta: seq<Member>, assign: seq<nat>, labels: seq<nat>, c: Community)
    requires |meta| == |assign| && (forall l :: l in labels ==> l in assign) &&
      c in multiset(Listed(meta, assign, labels))
    ensures c.size == |c.members| > 0
  {
    var listed := Listed(meta, assign, labels);
    var k :| 0 <= k < |listed| && listed[k] == c;
    assert labels[k] in labels;
    ListedSizes(meta, assign, labels[k]);
  }

  lemma SizesDescend(report: seq<Community>)
    requires Sorted(CommunityLeq, report)
    ensures forall i, j :: 0 <= i < j < |report| ==> report[i].size >= report[j].size
  {
    forall i, j | 0 <= i < j < |report| ensures report[i].size >= report[j].size {
      assert CommunityLeq(report[i], report[j]);
    }
  }

  /** Every interned node is a member of exactly one community: together the
      members are the interned nodes, the sizes add up to their number, no
      community is empty and sizes never increase along the report. */
  lemma ReportIsPartition(meta: seq<Member>, assign: seq<nat>)
    requires |meta| == |assign|
    ensures var report := Canonical(meta, assign);
      && |report| == |Labels(assign)|
      && AllMembers(report) == multiset(meta)
      && TotalSize(report) == |meta|
      && (forall c :: c in report ==> c.size == |c.members| > 0)
      && (forall i, j :: 0 <= i < j < |report| ==> report[i].size >= report[j].size)
  {
    var labels := Labels(assign);
    var listed := Listed(meta, assign, labels);
    LabelsFacts(assign);
    CanonicalByLabels(meta, assign, labels);
    CommunityOrder();
    SortSorts(CommunityLeq, listed);
    var report := Sort(CommunityLeq, listed);
    assert |report| == |multiset(report)| == |multiset(listed)| == |listed|;
    AllMembersPermute(report, listed);
    LabelsCoverMeta(meta, assign, labels);
    forall c | c in report ensures c.size == |c.members| > 0 {
      assert c in multiset(report);
      ListedNotEmpty(meta, assign, labels, c);
    }
    SizesAreMembers(report);
    assert |AllMembers(report)| == |multiset(meta)| == |meta|;
    SizesDescend(report);
  }

  // ---- What the report says ----

  // How many of the members are in this module.
  ghost function InModule(members: seq<Member>, path: string): nat {
    |Places(members, path)|
  }

  ghost function Places(members: seq<Member>, path: string): set<nat> {
    set i: nat | i < |members| && members[i].modulePath == path
  }

  lemma {:induction false} CountIsInModule(members: seq<Member>, path: string)
    ensures Count(members, path) == InModule(members, path)
  {
    if members != [] {
      hide InModule;
      CountIsInModule(members[..|members| - 1], path);
      InModuleNext(members, path);
    } else {
      InModuleNone(path);
    }
  }

  lemma InModuleNone(path: string)
    ensures InModule([], path) == 0
  {
  }

  lemma InModuleNext(members: seq<Member>, path: string)
    requires members != []
    ensures var n := |members| - 1;
      InModule(members, path) == InModule(members[..n], path) + if members[n].modulePath == path then 1 else 0
  {
    var n := |members| - 1;
    var before := Places(members[..n], path);
    assert Places(members, path) == if members[n].modulePath == path then before + {n} else before;
  }

  // The module most members are in, the first by name among equals.
  ghost predicate Titles(title: string, members: seq<Member>) {
    && (exists i :: 0 <= i < |members| && members[i].modulePath == title)
    && forall i :: 0 <= i < |members| ==>
         var path := members[i].modulePath;
         || InModule(members, path) < InModule(members, title)
         || (InModule(members, path) == InModule(members, title) && Before(title, path))
  }

  lemma DominantLabels(members: seq<Member>, path: string)
    requires IsDominant(members, path)
    ensures Titles(path, members)
  {
    CountIsInModule(members, path);
    forall i | 0 <= i < |members|
      ensures InModule(members, members[i].modulePath) < InModule(members, path) ||
        (InModule(members, members[i].modulePath) == InModule(members, path) && Before(path, members[i].modulePath))
    {
      CountIsInModule(members, members[i].modulePath);
      StrLeqIsBefore(path, members[i].modulePath);
      assert Better(members, path, members[i].modulePath);
    }
  }

  // Nodes of this class that appear as this member.
  ghost function Holders(meta: seq<Member>, assign: seq<nat>, c: nat, m: Member): set<nat>
    requires |meta| == |assign|
  {
    set i: nat | i < |assign| && assign[i] == c && meta[i] == m
  }

  lemma {:induction false} BucketCounts(meta: seq<Member>, assign: seq<nat>, c: nat, m: Member)
    requires |meta| == |assign|
    ensures multiset(Bucket(meta, assign, c))[m] == |Holders(meta, assign, c, m)|
  {
    if assign != [] {
      hide Bucket, Holders;
      var n := |assign| - 1;
      BucketCounts(meta[..n], assign[..n], c, m);
      HoldersNext(meta, assign, c, m);
      BucketNext(meta, assign, c);
    }
  }

  lemma HoldersNext(meta: seq<Member>, assign: seq<nat>, c: nat, m: Member)
    requires |meta| == |assign| > 0
    ensures var n := |assign| - 1;
      |Holders(meta, assign, c, m)| ==
        |Holders(meta[..n], assign[..n], c, m)| + if assign[n] == c && meta[n] == m then 1 else 0
  {
    var n := |assign| - 1;
    var before := Holders(meta[..n], assign[..n], c, m);
    assert Holders(meta, assign, c, m) == if assign[n] == c && meta[n] == m then before + {n} else before;
  }

  lemma BucketNext(meta: seq<Member>, assign: seq<nat>, c: nat)
    requires |meta| == |assign| > 0
    ensures var n := |assign| - 1;
      multiset(Bucket(meta, assign, c)) ==
        multiset(Bucket(meta[..n], assign[..n], c)) + if assign[n] == c then multiset{meta[n]} else multiset{}
  {
    var n := |assign| - 1;
    var before := Bucket(meta[..n], assign[..n], c);
    assert multiset(before + [meta[n]]) == multiset(before) + multiset{meta[n]};
    assert before + [] == before;
  }

  // Members by module and then name.
  ghost predicate ByModule(members: seq<Member>) {
    forall i, j :: 0 <= i < j < |members| ==>
      && Before(members[i].modulePath, members[j].modulePath)
      && (members[i].modulePath == members[j].modulePath ==> Before(members[i].name, members[j].name))
  }

  // One member list before another: shorter and otherwise the same, or first by name
  // and then module where they first differ.
  ghost predicate ListBefore(a: seq<Member>, b: seq<Member>) {
    a <= b || exists k: nat :: DiffersAt(a, b, k) && MemberBefore(a[k], b[k])
  }

  ghost predicate MemberBefore(a: Member, b: Member) {
    if a.name == b.name then Before(a.modulePath, b.modulePath) else Before(a.name, b.name)
  }

  // Larger first, then by title, then by members.
  ghost predicate ReportOrder(a: Community, b: Community) {
    && a.size >= b.size
    && (a.size == b.size ==> Before(a.title, b.title))
    && (a.size == b.size && a.title == b.title ==> ListBefore(a.members, b.members))
  }

  lemma ComparatorOrder(a: Community, b: Community)
    requires CommunityLeq(a, b)
    ensures ReportOrder(a, b)
  {
    StrOrder();
    MemberOrders();
    StrLeqIsBefore(a.title, b.title);
    if a.size == b.size && a.title == b.title {
      LexLeqExactly(NameFirst, a.members, b.members);
      if k: nat :| DiffersAt(a.members, b.members, k) && NameFirst(a.members[k], b.members[k]) {
        StrLeqIsBefore(a.members[k].name, b.members[k].name);
        StrLeqIsBefore(a.members[k].modulePath, b.members[k].modulePath);
      }
    }
  }

  // The community of one class: its members, each as often as nodes of the class appear
  // as it, in order, their number and their title.
  ghost predicate Reports(meta: seq<Member>, assign: seq<nat>, c: nat, community: Community)
    requires |meta| == |assign|
  {
    && (forall m :: multiset(community.members)[m] == |Holders(meta, assign, c, m)|)
    && community.size == |community.members| > 0
    && ByModule(community.members) && Titles(community.title, community.members)
  }

  lemma ForLabelReports(meta: seq<Member>, assign: seq<nat>, c: nat)
    requires |meta| == |assign| && c in assign
    ensures Reports(meta, assign, c, ForLabel(meta, assign, c))
  {
    hide Bucket, Sort, Titles, IsDominant, InModule, Before, ModuleFirst, BestOf;
    var bucket, community := Bucket(meta, assign, c), ForLabel(meta, assign, c);
    ListedSizes(meta, assign, c);
    MemberOrders();
    SortSorts(ModuleFirst, bucket);
    forall m ensures multiset(community.members)[m] == |Holders(meta, assign, c, m)| {
      BucketCounts(meta, assign, c, m);
    }
    SortedByModule(community.members);
    BestIsDominant(community.members);
    DominantLabels(community.members, community.title);
  }

  lemma BestIsDominant(members: seq<Member>)
    requires members != []
    ensures IsDominant(members, Dominant(members))
  {
    BestIsBest(members, |members|);
  }

  lemma SortedByModule(members: seq<Member>)
    requires Sorted(ModuleFirst, members)
    ensures ByModule(members)
  {
    StrOrder();
    forall i, j | 0 <= i < j < |members|
      ensures Before(members[i].modulePath, members[j].modulePath)
      ensures members[i].modulePath == members[j].modulePath ==> Before(members[i].name, members[j].name)
    {
      assert ModuleFirst(members[i], members[j]);
      StrLeqIsBefore(members[i].modulePath, members[j].modulePath);
      StrLeqIsBefore(members[i].name, members[j].name);
    }
  }

  /** The report has one community per class of the assignment: the members are that
      class's nodes by module and name, the title is their most frequent module, and the
      communities stand by size, then title, then members. */
  lemma ReportExactly(meta: seq<Member>, assign: seq<nat>) returns (order: seq<nat>)
    requires |meta| == |assign|
    ensures Distinct(order) && forall c :: c in order <==> c in assign
    ensures var report := Canonical(meta, assign);
      && |report| == |order|
      && (forall k :: 0 <= k < |report| ==> Reports(meta, assign, order[k], report[k]))
      && (forall i, j :: 0 <= i < j < |report| ==> ReportOrder(report[i], report[j]))
  {
    hide Canonical, ForLabel, Sort, CommunityLeq, Reports, ReportOrder;
    var f := (c: nat) => ForLabel(meta, assign, c);
    var labels := Labels(assign);
    LabelsFacts(assign);
    CanonicalByLabels(meta, assign, labels);
    CommunityOrder();
    assert Map(f, labels) == Listed(meta, assign, labels);
    SortSorts(CommunityLeq, Map(f, labels));
    var report := Canonical(meta, assign);
    order := RearrangedInputs(f, labels, report);
    SameElements(order, labels);
    forall k | 0 <= k < |report| ensures Reports(meta, assign, order[k], report[k]) {
      assert order[k] in order;
      ForLabelReports(meta, assign, order[k]);
    }
    forall i, j | 0 <= i < j < |report| ensures ReportOrder(report[i], report[j]) {
      assert CommunityLeq(report[i], report[j]);
      ComparatorOrder(report[i], report[j]);
    }
  }

  // A rearrangement of distinct elements has the same ones, once each.
  lemma SameElements(a: seq<nat>, b: seq<nat>)
    requires multiset(a) == multiset(b) && Distinct(b)
    ensures Distinct(a) && forall x :: x in a <==> x in b
  {
    forall x: nat ensures x in a <==> x in b { assert x in multiset(a) <==> x in multiset(b); }
    forall i, j | 0 <= i < j < |a| ensures a[i] != a[j] {
      DistinctCount(b, a[i]);
      RemoveAt(a, i);
      assert (a[..i] + a[i + 1..])[j - 1] == a[j];
    }
  }

  lemma {:induction false} EndpointsAt(edges: seq<Edge>, i: nat)
    requires i < |edges|
    ensures |Endpoints(edges)| == 2 * |edges|
    ensures Endpoints(edges)[2 * i] == edges[i].source && Endpoints(edges)[2 * i + 1] == edges[i].target
  {
    var n := |edges| - 1;
    if i < n {
      EndpointsAt(edges[..n], i);
    } else {
      EndpointsCount(edges[..n]);
    }
  }

  lemma {:induction false} EndpointsCount(edges: seq<Edge>)
    ensures |Endpoints(edges)| == 2 * |edges|
  {
    if edges != [] { EndpointsCount(edges[..|edges| - 1]); }
  }

  // ---- The detection ----

  /** Whatever order the hash maps are walked in, the report is the canonical one:
      its members are the first-seen endpoints, one per distinct endpoint id, spread
      over communities of which none is empty and sizes never increase. */
  method DetectCommunities(edges: seq<Edge>, assign: seq<nat>) returns (communities: seq<Community>)
    requires |assign| == |FirstSeen(Endpoints(edges))|  // what the clustering kernel returns
    ensures communities == Canonical(Map(MemberOf, FirstSeen(Endpoints(edges))), assign)
    ensures AllMembers(communities) == multiset(Map(MemberOf, FirstSeen(Endpoints(edges))))
    ensures TotalSize(communities) == |Ids(Endpoints(edges))|
    ensures forall c :: c in communities ==> c.size == |c.members| > 0
    ensures forall i, j :: 0 <= i < j < |communities| ==> communities[i].size >= communities[j].size
  {
    FirstSeenCount(Endpoints(edges));
    ReportIsPartition(Map(MemberOf, FirstSeen(Endpoints(edges))), assign);
    if edges == [] { return []; }
    var meta, indexed := InternEdges(edges);
    var buckets := Buckets(assign);
    communities := ListCommunities(meta, assign, buckets);
    ghost var order :| ListsAll(meta, assign, communities, order);
    CanonicalByLabels(meta, assign, order);
    communities := Sort(CommunityLeq, communities);
  }
}
