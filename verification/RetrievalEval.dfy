/**
 Retrieval evaluation: each query is ranked against all targets by similarity, and
 the ranks are folded into recall and mean reciprocal rank.  Similarities and
 metrics are exact reals.
 */
module RetrievalEval {
  import opened Basics
  import opened Sorting

  type Vector = seq<real>
  type Similarity = (Vector, Vector) -> real

  // The similarity in use; everything about ranks holds for any other as well.
  function Dot(a: Vector, b: Vector): real {
    if a == [] || b == [] then 0.0 else Mul(a[0], b[0]) + Dot(a[1..], b[1..])
  }

  // The product, named so that proofs can keep it abstract.
  function Mul(x: real, y: real): real { x * y }

  /** The similarity is the sum of the products of the coordinates. */
  lemma {:induction false} DotAppend(a: Vector, b: Vector, x: real, y: real)
    requires |a| == |b|
    ensures Dot(a + [x], b + [y]) == Dot(a, b) + x * y
  {
    if a != [] {
      DotAppend(a[1..], b[1..], x, y);
      assert (a + [x])[1..] == a[1..] + [x] && (b + [y])[1..] == b[1..] + [y];
    }
  }

  function Range(n: nat): (r: seq<nat>)
    ensures |r| == n && forall i :: 0 <= i < n ==> r[i] == i
  {
    if n == 0 then [] else Range(n - 1) + [n - 1]
  }

  // Similarity of query i to target j.
  function Sim(dot: Similarity, queries: seq<Vector>, targets: seq<Vector>, i: nat, j: nat): real
    requires i < |queries|
  {
    if j < |targets| then dot(queries[i], targets[j]) else 0.0
  }

  // ---- Ranks ----

  // Is target j another target, strictly more similar to query i than its own?
  ghost function Beats(dot: Similarity, queries: seq<Vector>, targets: seq<Vector>, i: nat): nat -> bool
    requires i < |queries|
  {
    (j: nat) => j != i && Sim(dot, queries, targets, i, j) > Sim(dot, queries, targets, i, i)
  }

  // Targets of `js` strictly more similar to query i than its own.
  ghost function BetterAmong(dot: Similarity, queries: seq<Vector>, targets: seq<Vector>, i: nat, js: seq<nat>): nat
    requires i < |queries|
  {
    multiset(Map(Beats(dot, queries, targets, i), js))[true]
  }

  ghost function Rank(dot: Similarity, queries: seq<Vector>, targets: seq<Vector>, i: nat): nat
    requires i < |queries|
  {
    BetterAmong(dot, queries, targets, i, Range(|targets|))
  }

  lemma BetterNext(dot: Similarity, queries: seq<Vector>, targets: seq<Vector>, i: nat, j: nat)
    requires i < |queries| == |targets| && j < |targets|
    ensures BetterAmong(dot, queries, targets, i, Range(j + 1)) == BetterAmong(dot, queries, targets, i, Range(j)) +
      if j != i && dot(queries[i], targets[j]) > dot(queries[i], targets[i]) then 1 else 0
  {
    CountAppend(Beats(dot, queries, targets, i), Range(j), j);
  }

  lemma NoneBetter(dot: Similarity, queries: seq<Vector>, targets: seq<Vector>, i: nat)
    requires i < |queries|
    ensures BetterAmong(dot, queries, targets, i, Range(0)) == 0
  {
  }

  lemma CountAppend(f: nat -> bool, js: seq<nat>, j: nat)
    ensures multiset(Map(f, js + [j]))[true] == multiset(Map(f, js))[true] + if f(j) then 1 else 0
  {
    hide Map;
    assert Map(f, js + [j]) == Map(f, js) + [f(j)];
    AppendMultiset(Map(f, js), f(j));
  }

  lemma AppendMultiset<T>(s: seq<T>, x: T)
    ensures multiset(s + [x]) == multiset(s) + multiset{x}
  {
  }

  method RankOf(dot: Similarity, queries: seq<Vector>, targets: seq<Vector>, i: nat) returns (better: nat)
    requires i < |queries| == |targets|
    ensures better == Rank(dot, queries, targets, i)
  {
    hide BetterAmong;
    NoneBetter(dot, queries, targets, i);
    var selfSim := dot(queries[i], targets[i]);
    better := 0;
    for j := 0 to |targets|
      invariant better == BetterAmong(dot, queries, targets, i, Range(j))
    {
      BetterNext(dot, queries, targets, i, j);
      if j != i && dot(queries[i], targets[j]) > selfSim { better := better + 1; }
    }
  }

  method Ranks(dot: Similarity, queries: seq<Vector>, targets: seq<Vector>) returns (ranks: seq<nat>)
    requires |queries| == |targets|
    ensures |ranks| == |queries| && forall i :: 0 <= i < |queries| ==> ranks[i] == Rank(dot, queries, targets, i)
  {
    hide Rank;
    ranks := [];
    for i := 0 to |queries|
      invariant |ranks| == i && forall h :: 0 <= h < i ==> ranks[h] == Rank(dot, queries, targets, h)
    {
      var better := RankOf(dot, queries, targets, i);
      ranks := ranks + [better];
    }
  }

  // A listing of all targets by descending similarity to query i.
  ghost predicate Descending(dot: Similarity, queries: seq<Vector>, targets: seq<Vector>, i: nat, order: seq<nat>)
    requires i < |queries|
  {
    && multiset(order) == multiset(Range(|targets|))
    && forall a, b :: 0 <= a < b < |order| ==>
      Sim(dot, queries, targets, i, order[a]) >= Sim(dot, queries, targets, i, order[b])
  }

  lemma {:induction false} CountTrue(bits: seq<bool>, p: nat)
    requires p <= |bits| && forall k :: p <= k < |bits| ==> !bits[k]
    ensures multiset(bits)[true] <= p
    ensures (forall k :: 0 <= k < p ==> bits[k]) ==> multiset(bits)[true] == p
  {
    if bits != [] {
      var n := |bits| - 1;
      CountTrue(bits[..n], if p <= n then p else n);
      assert bits == bits[..n] + [bits[n]];
    }
  }

  // Counting along another listing of the targets counts the same.
  lemma RankAlong(dot: Similarity, queries: seq<Vector>, targets: seq<Vector>, i: nat, order: seq<nat>)
    requires i < |queries| && multiset(order) == multiset(Range(|targets|))
    ensures Rank(dot, queries, targets, i) == BetterAmong(dot, queries, targets, i, order)
  {
    MapMultiset(Beats(dot, queries, targets, i), order, Range(|targets|));
  }

  /** In every similarity-descending order the true target stands no earlier than
      its rank... */
  lemma RankIsLowerBound(dot: Similarity, queries: seq<Vector>, targets: seq<Vector>, i: nat, order: seq<nat>, p: nat)
    requires i < |queries| == |targets| && Descending(dot, queries, targets, i, order)
    requires p < |order| && order[p] == i
    ensures Rank(dot, queries, targets, i) <= p
  {
    hide Range, Rank, Map;
    var f := Beats(dot, queries, targets, i);
    RankAlong(dot, queries, targets, i, order);
    var bits := Map(f, order);
    forall k | p <= k < |order| ensures !bits[k] { assert !f(order[k]); }
    CountTrue(bits, p);
  }

  // Where everything before the true target beats it and nothing after does, its
  // position is its rank.
  lemma RankAtPosition(dot: Similarity, queries: seq<Vector>, targets: seq<Vector>, i: nat, order: seq<nat>, p: nat)
    requires i < |queries| && multiset(order) == multiset(Range(|targets|))
    requires p < |order| && order[p] == i
    requires forall k :: 0 <= k < p ==>
      order[k] != i && Sim(dot, queries, targets, i, order[k]) > Sim(dot, queries, targets, i, i)
    requires forall k :: p < k < |order| ==> Sim(dot, queries, targets, i, order[k]) <= Sim(dot, queries, targets, i, i)
    ensures Rank(dot, queries, targets, i) == p
  {
    hide Range, Rank, Map, Sim;
    var f := Beats(dot, queries, targets, i);
    RankAlong(dot, queries, targets, i, order);
    var bits := Map(f, order);
    forall k | 0 <= k < p ensures bits[k] { assert f(order[k]); }
    forall k | p <= k < |order| ensures !bits[k] { assert !f(order[k]); }
    CountTrue(bits, p);
  }

  // Descending similarity, ties going to the true target.
  ghost predicate Ahead(sim: nat -> real, i: nat, a: nat, b: nat) {
    sim(a) > sim(b) || (sim(a) == sim(b) && (a == i || b != i))
  }

  lemma AheadOrder(sim: nat -> real, i: nat)
    ensures Preorder((a: nat, b: nat) => Ahead(sim, i, a, b))
  {
  }

  /** ...and in one of them it stands exactly there: ties go to the true target. */
  lemma RankIsAttained(dot: Similarity, queries: seq<Vector>, targets: seq<Vector>, i: nat)
    returns (order: seq<nat>, p: nat)
    requires i < |queries| == |targets|
    ensures Descending(dot, queries, targets, i, order)
    ensures p < |order| && order[p] == i && p == Rank(dot, queries, targets, i)
  {
    var sim := (j: nat) => Sim(dot, queries, targets, i, j);
    var n := |targets|;
    order := AheadSorted(sim, i, n);
    assert Range(n)[i] == i && i in multiset(order);
    p :| 0 <= p < |order| && order[p] == i;
    OnlyOnce(n, order, p);
    forall a, b | 0 <= a < b < |order| ensures sim(order[a]) >= sim(order[b]) {
      assert Ahead(sim, i, order[a], order[b]);
    }
    forall k | 0 <= k < p ensures order[k] != i && sim(order[k]) > sim(i) {
      assert Ahead(sim, i, order[k], order[p]);
    }
    RankAtPosition(dot, queries, targets, i, order, p);
  }

  lemma AheadSorted(sim: nat -> real, i: nat, n: nat) returns (order: seq<nat>)
    ensures multiset(order) == multiset(Range(n))
    ensures forall a, b :: 0 <= a < b < |order| ==> Ahead(sim, i, order[a], order[b])
  {
    var leq := (a: nat, b: nat) => Ahead(sim, i, a, b);
    AheadOrder(sim, i);
    SortSorts(leq, Range(n));
    order := Sort(leq, Range(n));
    forall a, b | 0 <= a < b < |order| ensures Ahead(sim, i, order[a], order[b]) {
      assert leq(order[a], order[b]);
    }
  }

  // A rearrangement of the range holds every position once.
  lemma OnlyOnce(n: nat, order: seq<nat>, p: nat)
    requires multiset(order) == multiset(Range(n)) && p < |order|
    ensures forall k :: 0 <= k < |order| && k != p ==> order[k] != order[p]
  {
    var x := order[p];
    assert order == order[..p] + [x] + order[p + 1..];
    RangeOnce(n, x);
    forall k | 0 <= k < |order| && k != p ensures order[k] != x {
      if k < p {
        assert order[..p][k] in multiset(order[..p]);
      } else {
        assert order[p + 1..][k - p - 1] in multiset(order[p + 1..]);
      }
    }
  }

  lemma RangeOnce(n: nat, x: nat)
    ensures multiset(Range(n))[x] <= 1
  {
    DistinctCount(Range(n), x);
  }

  // ---- Metrics ----

  datatype Metrics = Metrics(mrr: real, recall1: real, recall5: real, recall10: real, ndcg: real, queries: nat)

  // `discount` is the reciprocal of the logarithm to base 2 of the rank plus two.
  type Discount = nat -> real

  ghost predicate IsDiscount(discount: Discount) {
    discount(0) == 1.0 && forall rank: nat :: rank > 0 ==> 0.0 < discount(rank) < 1.0
  }

  function Sum(f: nat -> real, ranks: seq<nat>): real {
    if ranks == [] then 0.0 else Sum(f, ranks[..|ranks| - 1]) + f(ranks[|ranks| - 1])
  }

  function Reciprocal(rank: nat): real { 1.0 / (rank as real + 1.0) }

  function Reciprocals(ranks: seq<nat>): real { Sum(Reciprocal, ranks) }

  function Within(ranks: seq<nat>, cut: nat): nat {
    if ranks == [] then 0 else Within(ranks[..|ranks| - 1], cut) + if ranks[|ranks| - 1] < cut then 1 else 0
  }

  // The gain of a true target at this rank; there is one relevant target per query.
  function Gain(discount: Discount, rank: nat): real { if rank < 10 then discount(rank) else 0.0 }

  function Gains(discount: Discount, ranks: seq<nat>): real { Sum((rank: nat) => Gain(discount, rank), ranks) }

  function MetricsOf(discount: Discount, ranks: seq<nat>): Metrics {
    var n := |ranks|;
    if n == 0 then Metrics(0.0, 0.0, 0.0, 0.0, 0.0, 0)
    else Metrics(Reciprocals(ranks) / n as real, Within(ranks, 1) as real / n as real,
                 Within(ranks, 5) as real / n as real, Within(ranks, 10) as real / n as real,
                 Gains(discount, ranks) / n as real, n)
  }

  method ComputeMetrics(discount: Discount, ranks: seq<nat>) returns (m: Metrics)
    ensures m == MetricsOf(discount, ranks)
  {
    var n := |ranks|;
    if n == 0 { return Metrics(0.0, 0.0, 0.0, 0.0, 0.0, 0); }
    var mrr, r1, r5, r10, ndcg := 0.0, 0, 0, 0, 0.0;
    for i := 0 to n
      invariant mrr == Reciprocals(ranks[..i]) && ndcg == Gains(discount, ranks[..i])
      invariant r1 == Within(ranks[..i], 1) && r5 == Within(ranks[..i], 5) && r10 == Within(ranks[..i], 10)
    {
      assert ranks[..i + 1][..i] == ranks[..i];
      var rank := ranks[i];
      mrr := mrr + 1.0 / (rank as real + 1.0);
      if rank < 1 { r1 := r1 + 1; }
      if rank < 5 { r5 := r5 + 1; }
      if rank < 10 {
        r10 := r10 + 1;
        ndcg := ndcg + discount(rank);
      }
    }
    assert ranks[..n] == ranks;
    var nf := n as real;
    return Metrics(mrr / nf, r1 as real / nf, r5 as real / nf, r10 as real / nf, ndcg / nf, n);
  }

  lemma {:induction false} GainBounds(discount: Discount, ranks: seq<nat>)
    requires IsDiscount(discount)
    ensures Within(ranks, 1) as real <= Gains(discount, ranks) <= Within(ranks, 10) as real
  {
    if ranks != [] { GainBounds(discount, ranks[..|ranks| - 1]); }
  }

  lemma {:induction false} SumBounds(ranks: seq<nat>)
    ensures Within(ranks, 1) <= Within(ranks, 5) <= Within(ranks, 10) <= |ranks|
    ensures Within(ranks, 1) as real <= Reciprocals(ranks) <= (|ranks| as real + Within(ranks, 1) as real) / 2.0
  {
    if ranks != [] {
      var n := |ranks| - 1;
      SumBounds(ranks[..n]);
      ReciprocalBounds(ranks[n]);
    }
  }

  lemma ReciprocalBounds(rank: nat)
    ensures 0.0 < Reciprocal(rank) <= 1.0
    ensures rank >= 1 ==> Reciprocal(rank) <= 0.5
    ensures rank == 0 ==> Reciprocal(rank) == 1.0
  {
    var d := rank as real + 1.0;
    assert d >= 1.0 && (1.0 / d) * d == 1.0;
  }

  lemma DivideLe(a: real, b: real, n: real)
    requires n > 0.0 && a <= b
    ensures a / n <= b / n
  {
  }

  lemma Cancel(y: real, n: real)
    requires n > 0.0
    ensures (y * n) / n == y
  {
  }

  lemma HalfShare(n: real, r1: real)
    requires n > 0.0
    ensures ((n + r1) / 2.0) / n == (1.0 + r1 / n) / 2.0
  {
    var x := r1 / n;
    assert r1 == x * n;
    var y := (1.0 + x) / 2.0;
    assert y * n == n / 2.0 + (x * n) / 2.0;
    var half := (n + r1) / 2.0;
    assert half == y * n;
    Cancel(y, n);
    assert half / n == y;
  }

  lemma ShareBounds(n: real, r1: real, r5: real, r10: real, sum: real, gains: real)
    requires 0.0 < n && 0.0 <= r1 <= r5 <= r10 <= n && r1 <= sum <= (n + r1) / 2.0 && r1 <= gains <= r10
    ensures 0.0 <= r1 / n <= r5 / n <= r10 / n <= 1.0
    ensures r1 / n <= sum / n <= (1.0 + r1 / n) / 2.0
    ensures r1 / n <= gains / n <= r10 / n
  {
    DivideLe(0.0, r1, n);
    DivideLe(r1, r5, n);
    DivideLe(r5, r10, n);
    DivideLe(r10, n, n);
    DivideLe(r1, sum, n);
    DivideLe(sum, (n + r1) / 2.0, n);
    HalfShare(n, r1);
    DivideLe(r1, gains, n);
    DivideLe(gains, r10, n);
  }

  /** recall@1 <= recall@5 <= recall@10 <= 1, recall@1 <= MRR <= (1 + recall@1) / 2,
      and NDCG@10 lies between recall@1 and recall@10. */
  lemma MetricBounds(discount: Discount, ranks: seq<nat>)
    requires ranks != [] && IsDiscount(discount)
    ensures var m := MetricsOf(discount, ranks);
      && 0.0 <= m.recall1 <= m.recall5 <= m.recall10 <= 1.0
      && m.recall1 <= m.mrr <= (1.0 + m.recall1) / 2.0
      && m.recall1 <= m.ndcg <= m.recall10
  {
    SumBounds(ranks);
    GainBounds(discount, ranks);
    ShareBounds(|ranks| as real, Within(ranks, 1) as real, Within(ranks, 5) as real, Within(ranks, 10) as real,
                Reciprocals(ranks), Gains(discount, ranks));
  }

  // ---- What the metrics are ----

  /** One query at this rank: its reciprocal, whether it is within each cut, its gain. */
  lemma MetricsOfOne(discount: Discount, rank: nat)
    ensures MetricsOf(discount, [rank]) == Metrics(1.0 / (rank as real + 1.0),
      if rank < 1 then 1.0 else 0.0, if rank < 5 then 1.0 else 0.0, if rank < 10 then 1.0 else 0.0,
      if rank < 10 then discount(rank) else 0.0, 1)
  {
    assert [rank][..0] == [];
    SumOne(Reciprocal, rank);
    SumOne((r: nat) => Gain(discount, r), rank);
    assert forall cut: nat :: Within([rank], cut) == if rank < cut then 1 else 0;
    Cancel(Reciprocal(rank), 1.0);
    Cancel(0.0, 1.0);
    Cancel(discount(rank), 1.0);
  }

  lemma SumOne(f: nat -> real, x: nat)
    ensures Sum(f, [x]) == f(x)
  {
    assert [x][..0] == [];
  }

  lemma {:induction false} SumConcat(f: nat -> real, a: seq<nat>, b: seq<nat>)
    ensures Sum(f, a + b) == Sum(f, a) + Sum(f, b)
    decreases |b|
  {
    if b == [] {
      assert a + b == a;
    } else {
      var n := |b| - 1;
      SumConcat(f, a, b[..n]);
      assert (a + b)[..|a + b| - 1] == a + b[..n];
    }
  }

  lemma {:induction false} WithinConcat(a: seq<nat>, b: seq<nat>, cut: nat)
    ensures Within(a + b, cut) == Within(a, cut) + Within(b, cut)
    decreases |b|
  {
    if b == [] {
      assert a + b == a;
    } else {
      var n := |b| - 1;
      WithinConcat(a, b[..n], cut);
      assert (a + b)[..|a + b| - 1] == a + b[..n];
    }
  }

  // The mean of a metric over all queries, from its means over the two parts.
  ghost predicate Weighted(a: real, na: nat, b: real, nb: nat, all: real) {
    Mul((na + nb) as real, all) == Mul(na as real, a) + Mul(nb as real, b)
  }

  lemma WeightedSums(a: real, na: nat, b: real, nb: nat)
    ensures na > 0 && nb > 0 ==> Weighted(a / na as real, na, b / nb as real, nb, (a + b) / (na + nb) as real)
    ensures na > 0 ==> Weighted(a / na as real, na, 0.0, 0, a / na as real)
    ensures nb > 0 ==> Weighted(0.0, 0, b / nb as real, nb, b / nb as real)
    ensures Weighted(0.0, 0, 0.0, 0, 0.0)
  {
    if na > 0 { Undo(a, na as real); }
    if nb > 0 { Undo(b, nb as real); }
    if na > 0 && nb > 0 { Undo(a + b, (na + nb) as real); }
  }

  /** Evaluating more queries averages every metric by the numbers of queries; with
      MetricsOfOne this says what each metric of any ranks is. */
  lemma MetricsAverage(discount: Discount, a: seq<nat>, b: seq<nat>)
    ensures var (m, ma, mb) := (MetricsOf(discount, a + b), MetricsOf(discount, a), MetricsOf(discount, b));
      && m.queries == |a| + |b|
      && Weighted(ma.mrr, |a|, mb.mrr, |b|, m.mrr) && Weighted(ma.recall1, |a|, mb.recall1, |b|, m.recall1)
      && Weighted(ma.recall5, |a|, mb.recall5, |b|, m.recall5)
      && Weighted(ma.recall10, |a|, mb.recall10, |b|, m.recall10) && Weighted(ma.ndcg, |a|, mb.ndcg, |b|, m.ndcg)
  {
    var gain := (r: nat) => Gain(discount, r);
    SumConcat(Reciprocal, a, b);
    SumConcat(gain, a, b);
    WithinConcat(a, b, 1);
    WithinConcat(a, b, 5);
    WithinConcat(a, b, 10);
    WeightedSums(Reciprocals(a), |a|, Reciprocals(b), |b|);
    WeightedSums(Within(a, 1) as real, |a|, Within(b, 1) as real, |b|);
    WeightedSums(Within(a, 5) as real, |a|, Within(b, 5) as real, |b|);
    WeightedSums(Within(a, 10) as real, |a|, Within(b, 10) as real, |b|);
    WeightedSums(Gains(discount, a), |a|, Gains(discount, b), |b|);
    hide Sum, Within, Weighted, Reciprocal;
  }

  // ---- Permuting the items ----

  lemma {:induction false} SumAt(f: nat -> real, ranks: seq<nat>, i: nat)
    requires i < |ranks|
    ensures Sum(f, ranks) == Sum(f, ranks[..i] + ranks[i + 1..]) + f(ranks[i])
    decreases |ranks|
  {
    var n := |ranks| - 1;
    var rest := ranks[..i] + ranks[i + 1..];
    if i == n {
      assert rest == ranks[..n];
    } else {
      SumAt(f, ranks[..n], i);
      assert rest[..n - 1] == ranks[..n][..i] + ranks[..n][i + 1..] && rest[n - 1] == ranks[n];
    }
  }

  lemma {:induction false} SumPermute(f: nat -> real, a: seq<nat>, b: seq<nat>)
    requires multiset(a) == multiset(b)
    ensures Sum(f, a) == Sum(f, b)
    decreases |a|
  {
    assert |a| == |multiset(a)| == |multiset(b)| == |b|;
    if a != [] {
      var i := TakeOut(a, b);
      SumPermute(f, a[1..], b[..i] + b[i + 1..]);
      SumAt(f, b, i);
      SumAt(f, a, 0);
      assert a[..0] + a[1..] == a[1..];
    }
  }

  lemma {:induction false} WithinIsSum(ranks: seq<nat>, cut: nat)
    ensures Within(ranks, cut) as real == Sum(rank => if rank < cut then 1.0 else 0.0, ranks)
  {
    if ranks != [] { WithinIsSum(ranks[..|ranks| - 1], cut); }
  }

  lemma FoldPermute(a: seq<nat>, b: seq<nat>, cut: nat)
    requires multiset(a) == multiset(b)
    ensures Reciprocals(a) == Reciprocals(b) && Within(a, cut) == Within(b, cut)
  {
    SumPermute(Reciprocal, a, b);
    WithinIsSum(a, cut);
    WithinIsSum(b, cut);
    SumPermute(rank => if rank < cut then 1.0 else 0.0, a, b);
  }

  lemma MetricsPermute(discount: Discount, a: seq<nat>, b: seq<nat>)
    requires multiset(a) == multiset(b)
    ensures MetricsOf(discount, a) == MetricsOf(discount, b)
  {
    assert |a| == |multiset(a)| == |multiset(b)| == |b|;
    FoldPermute(a, b, 1);
    FoldPermute(a, b, 5);
    FoldPermute(a, b, 10);
    SumPermute((rank: nat) => Gain(discount, rank), a, b);
  }

  // The items in the order pi.
  ghost predicate Permuted(queries: seq<Vector>, queries': seq<Vector>, pi: seq<nat>) {
    && |pi| == |queries| == |queries'| && multiset(pi) == multiset(Range(|pi|))
    && forall i :: 0 <= i < |pi| ==> pi[i] < |queries| && queries'[i] == queries[pi[i]]
  }

  lemma RankPermute(dot: Similarity, queries: seq<Vector>, targets: seq<Vector>, queries': seq<Vector>,
      targets': seq<Vector>, pi: seq<nat>, i: nat)
    requires Permuted(queries, queries', pi) && Permuted(targets, targets', pi) && i < |pi|
    ensures Rank(dot, queries', targets', i) == Rank(dot, queries, targets, pi[i])
  {
    hide Range, Map;
    var f := Beats(dot, queries, targets, pi[i]);
    var g := Beats(dot, queries', targets', i);
    RankAlong(dot, queries, targets, pi[i], pi);
    forall k | 0 <= k < |pi| ensures g(k) == f(pi[k]) {
      BeatsPermute(dot, queries, targets, queries', targets', pi, i, k);
    }
    assert Map(g, Range(|pi|)) == Map(f, pi);
  }

  lemma BeatsPermute(dot: Similarity, queries: seq<Vector>, targets: seq<Vector>, queries': seq<Vector>,
      targets': seq<Vector>, pi: seq<nat>, i: nat, k: nat)
    requires Permuted(queries, queries', pi) && Permuted(targets, targets', pi) && i < |pi| && k < |pi|
    ensures Beats(dot, queries', targets', i)(k) == Beats(dot, queries, targets, pi[i])(pi[k])
  {
    hide Range;
    OnlyOnce(|pi|, pi, i);
  }

  /** The order of the items is immaterial to every metric. */
  lemma MetricsIgnoreItemOrder(dot: Similarity, discount: Discount, queries: seq<Vector>, targets: seq<Vector>,
      queries': seq<Vector>, targets': seq<Vector>, pi: seq<nat>, ranks: seq<nat>, ranks': seq<nat>)
    requires Permuted(queries, queries', pi) && Permuted(targets, targets', pi)
    requires RanksOf(dot, queries, targets, ranks) && RanksOf(dot, queries', targets', ranks')
    ensures MetricsOf(discount, ranks') == MetricsOf(discount, ranks)
  {
    var at := (i: nat) => if i < |ranks| then ranks[i] else 0;
    forall i | 0 <= i < |pi| ensures ranks'[i] == at(pi[i]) {
      RankPermute(dot, queries, targets, queries', targets', pi, i);
    }
    assert ranks' == Map(at, pi) && ranks == Map(at, Range(|pi|));
    MapMultiset(at, pi, Range(|pi|));
    MetricsPermute(discount, ranks, ranks');
  }

  // ---- The degeneracy guard ----

  // No other target is ever strictly more similar than the true one.
  ghost predicate NeverBeaten(dot: Similarity, queries: seq<Vector>, targets: seq<Vector>) {
    forall i, j :: 0 <= i < |queries| && 0 <= j < |targets| ==> !Beats(dot, queries, targets, i)(j)
  }

  function Perfect(n: nat): Metrics { Metrics(1.0, 1.0, 1.0, 1.0, 1.0, n) }

  lemma {:induction false} AllZero(discount: Discount, ranks: seq<nat>)
    requires IsDiscount(discount) && forall i :: 0 <= i < |ranks| ==> ranks[i] == 0
    ensures Within(ranks, 1) == Within(ranks, 5) == Within(ranks, 10) == |ranks|
    ensures Reciprocals(ranks) == |ranks| as real && Gains(discount, ranks) == |ranks| as real
  {
    if ranks != [] { AllZero(discount, ranks[..|ranks| - 1]); }
  }

  lemma {:induction false} AllFirst(ranks: seq<nat>)
    requires Within(ranks, 1) == |ranks|
    ensures forall i :: 0 <= i < |ranks| ==> ranks[i] == 0
  {
    if ranks != [] {
      SumBounds(ranks[..|ranks| - 1]);
      AllFirst(ranks[..|ranks| - 1]);
    }
  }

  // A perfect score, already a perfect recall@1, means that every rank is 0.
  lemma PerfectScore(discount: Discount, ranks: seq<nat>)
    requires ranks != [] && IsDiscount(discount)
    ensures MetricsOf(discount, ranks) == Perfect(|ranks|) <==> forall i :: 0 <= i < |ranks| ==> ranks[i] == 0
    ensures MetricsOf(discount, ranks).recall1 == 1.0 <==> forall i :: 0 <= i < |ranks| ==> ranks[i] == 0
  {
    var n := |ranks| as real;
    if forall i :: 0 <= i < |ranks| ==> ranks[i] == 0 {
      AllZero(discount, ranks);
      Cancel(1.0, n);
    } else if MetricsOf(discount, ranks).recall1 == 1.0 {
      Undo(Within(ranks, 1) as real, n);
      AllFirst(ranks);
    }
  }

  lemma {:induction false} CountFalse(bits: seq<bool>)
    ensures multiset(bits)[true] == 0 <==> forall k :: 0 <= k < |bits| ==> !bits[k]
  {
    if bits != [] {
      var n := |bits| - 1;
      CountFalse(bits[..n]);
      assert bits == bits[..n] + [bits[n]];
    }
  }

  lemma FirstIffUnbeaten(dot: Similarity, queries: seq<Vector>, targets: seq<Vector>, i: nat)
    requires i < |queries|
    ensures Rank(dot, queries, targets, i) == 0 <==>
      forall j :: 0 <= j < |targets| ==> !Beats(dot, queries, targets, i)(j)
  {
    var f := Beats(dot, queries, targets, i);
    var bits := Map(f, Range(|targets|));
    CountFalse(bits);
    assert forall j :: 0 <= j < |targets| ==> bits[j] == f(j);
  }

  ghost predicate RanksOf(dot: Similarity, queries: seq<Vector>, targets: seq<Vector>, ranks: seq<nat>) {
    |queries| == |targets| == |ranks| && forall i :: 0 <= i < |ranks| ==> ranks[i] == Rank(dot, queries, targets, i)
  }

  /** Every metric is a perfect 1 exactly when no target ever beats the true one. */
  lemma TiesScorePerfect(dot: Similarity, discount: Discount, queries: seq<Vector>, targets: seq<Vector>,
      ranks: seq<nat>)
    requires ranks != [] && RanksOf(dot, queries, targets, ranks) && IsDiscount(discount)
    ensures MetricsOf(discount, ranks) == Perfect(|ranks|) <==> NeverBeaten(dot, queries, targets)
  {
    PerfectScore(discount, ranks);
    forall i | 0 <= i < |ranks|
      ensures ranks[i] == 0 <==> forall j :: 0 <= j < |targets| ==> !Beats(dot, queries, targets, i)(j)
    {
      FirstIffUnbeaten(dot, queries, targets, i);
    }
  }

  lemma ConstantTargetsTie(dot: Similarity, queries: seq<Vector>, targets: seq<Vector>)
    requires |queries| == |targets| && Constant(targets)
    ensures NeverBeaten(dot, queries, targets)
  {
  }

  predicate Constant(vectors: seq<Vector>) { forall j :: 0 <= j < |vectors| ==> vectors[j] == vectors[0] }

  const EPSILON: real := 0.00000011920929

  predicate ZeroOrEmpty(v: Vector) { v == [] || Dot(v, v) <= EPSILON }

  // What the guard rejects, judged on the vectors as the provider returned them.
  predicate Degenerate(targets: seq<Vector>, queries: seq<Vector>) {
    || (exists i :: 0 <= i < |targets| && ZeroOrEmpty(targets[i]))
    || (exists i :: 0 <= i < |queries| && ZeroOrEmpty(queries[i]))
    || (|targets| >= 2 && Constant(targets))
  }

  lemma MetricsOfNone(discount: Discount)
    ensures MetricsOf(discount, []) == Metrics(0.0, 0.0, 0.0, 0.0, 0.0, 0)
  {
  }

  lemma DegenerateExactly(targets: seq<Vector>, queries: seq<Vector>)
    ensures Degenerate(targets, queries) <==>
      || (exists v :: v in targets + queries && (v == [] || Dot(v, v) <= 0.00000011920929))
      || (|targets| >= 2 && forall j :: 0 <= j < |targets| ==> targets[j] == targets[0])
  {
    hide Dot;
    if i :| 0 <= i < |targets| && ZeroOrEmpty(targets[i]) { assert targets[i] in targets + queries; }
    if i :| 0 <= i < |queries| && ZeroOrEmpty(queries[i]) { assert (targets + queries)[|targets| + i] == queries[i]; }
    if v :| v in targets + queries && (v == [] || Dot(v, v) <= 0.00000011920929) {
      assert ZeroOrEmpty(v);
      var i :| 0 <= i < |targets + queries| && (targets + queries)[i] == v;
      if i >= |targets| { assert ZeroOrEmpty(queries[i - |targets|]); }
    }
  }

  datatype Evaluation = Scored(metrics: Metrics) | Rejected

  // `targets` and `queries` are the provider's two replies, None where it failed;
  // `norm` is the Euclidean norm.
  method RunProvider(items: nat, targets: Option<seq<Vector>>, queries: Option<seq<Vector>>, norm: Vector -> real,
      discount: Discount)
    returns (r: Evaluation)
    ensures items == 0 ==> r == Scored(Metrics(0.0, 0.0, 0.0, 0.0, 0.0, 0))
    ensures items > 0 ==> (r.Rejected? <==>
      targets.None? || queries.None? || |targets.value| != items || |queries.value| != items ||
        Degenerate(targets.value, queries.value))
    ensures items > 0 ==> (r.Rejected? <==>
      targets.None? || queries.None? || |targets.value| != items || |queries.value| != items ||
        (exists v :: v in targets.value + queries.value && (v == [] || Dot(v, v) <= 0.00000011920929)) ||
        (items >= 2 && forall j :: 0 <= j < items ==> targets.value[j] == targets.value[0]))
    ensures items > 0 && r.Scored? ==> exists ranks: seq<nat> ::
      |ranks| == items && r.metrics == MetricsOf(discount, ranks) &&
      RanksOf(Dot, NormalizeAll(norm, queries.value), NormalizeAll(norm, targets.value), ranks)
  {
    if targets.Some? && queries.Some? { DegenerateExactly(targets.value, queries.value); }
    MetricsOfNone(discount);
    hide ZeroOrEmpty, NormalizeAll, MetricsOf, Dot, Rank;
    if items == 0 {
      var none := ComputeMetrics(discount, []);
      return Scored(none);
    }
    if targets.None? || queries.None? { return Rejected; }
    var tvecs, qvecs := targets.value, queries.value;
    if |tvecs| != items || |qvecs| != items { return Rejected; }
    if (exists i :: 0 <= i < |tvecs| && ZeroOrEmpty(tvecs[i])) ||
      (exists i :: 0 <= i < |qvecs| && ZeroOrEmpty(qvecs[i])) {
      return Rejected;
    }
    if |tvecs| >= 2 && forall i :: 0 <= i < |tvecs| ==> tvecs[i] == tvecs[0] { return Rejected; }
    tvecs, qvecs := NormalizeAll(norm, tvecs), NormalizeAll(norm, qvecs);
    var ranks := Ranks(Dot, qvecs, tvecs);
    var m := ComputeMetrics(discount, ranks);
    return Scored(m);
  }

  // ---- What the guard misses ----

  function Scale(c: real, v: Vector): (w: Vector)
    ensures |w| == |v| && forall i :: 0 <= i < |v| ==> w[i] == Mul(c, v[i])
  {
    if v == [] then [] else [Mul(c, v[0])] + Scale(c, v[1..])
  }

  ghost predicate IsNorm(norm: Vector -> real) {
    forall v :: norm(v) >= 0.0 && Mul(norm(v), norm(v)) == Dot(v, v)
  }

  function Normalize(norm: Vector -> real, v: Vector): Vector {
    if norm(v) > 0.0 then Scale(1.0 / norm(v), v) else v
  }

  function NormalizeAll(norm: Vector -> real, vectors: seq<Vector>): (unit: seq<Vector>)
    ensures |unit| == |vectors|
  {
    Map((v: Vector) => Normalize(norm, v), vectors)
  }

  lemma FactorScaled(a: real, b: real, x: real, y: real, d: real)
    ensures Mul(Mul(a, x), Mul(b, y)) + Mul(Mul(a, b), d) == Mul(Mul(a, b), Mul(x, y) + d)
  {
    assert (a * x) * (b * y) == (a * b) * (x * y);
  }

  lemma {:induction false} DotScaled(a: real, b: real, u: Vector, v: Vector)
    ensures Dot(Scale(a, u), Scale(b, v)) == Mul(Mul(a, b), Dot(u, v))
  {
    hide Mul;
    if u == [] || v == [] {
      MulZero(Mul(a, b));
    } else {
      DotScaled(a, b, u[1..], v[1..]);
      assert Scale(a, u)[1..] == Scale(a, u[1..]) && Scale(b, v)[1..] == Scale(b, v[1..]);
      FactorScaled(a, b, u[0], v[0], Dot(u[1..], v[1..]));
    }
  }

  lemma MulZero(x: real)
    ensures Mul(x, 0.0) == 0.0
  {
  }

  lemma MulSigns(x: real, y: real)
    ensures x >= 0.0 && y >= 0.0 ==> Mul(x, y) >= 0.0
    ensures x > 0.0 && y > 0.0 ==> Mul(x, y) > 0.0
  {
  }

  lemma SquaresGrow(x: real, y: real)
    requires 0.0 <= x < y
    ensures Mul(x, x) < Mul(y, y)
  {
    MulSigns(y - x, x);
    MulSigns(y - x, y);
    assert y * y == x * x + (y - x) * x + (y - x) * y;
  }

  lemma RootUnique(x: real, y: real)
    requires x >= 0.0 && y >= 0.0 && Mul(x, x) == Mul(y, y)
    ensures x == y
  {
    hide Mul;
    if x < y { SquaresGrow(x, y); }
    if y < x { SquaresGrow(y, x); }
  }

  lemma NormScaled(norm: Vector -> real, c: real, v: Vector)
    requires IsNorm(norm) && c > 0.0
    ensures norm(Scale(c, v)) == Mul(c, norm(v))
  {
    hide Mul, Dot, Scale;
    var n := norm(v);
    DotScaled(c, c, v, v);
    FactorScaled(c, c, n, n, 0.0);
    MulZero(Mul(c, c));
    MulSigns(c, n);
    RootUnique(norm(Scale(c, v)), Mul(c, n));
  }

  // An entry of a vector scaled by c, over its norm scaled by c.
  lemma Shrink(c: real, n: real, x: real)
    requires c > 0.0 && n > 0.0 && Mul(c, n) > 0.0
    ensures Mul(1.0 / Mul(c, n), Mul(c, x)) == Mul(1.0 / n, x)
  {
    var p, q := 1.0 / Mul(c, n), 1.0 / n;
    assert p * (c * n) == 1.0 && q * n == 1.0;
    CancelFactor(c, n, p, q);
    assert p * (c * x) == (p * c) * x;
  }

  lemma CancelFactor(c: real, n: real, p: real, q: real)
    requires p * (c * n) == 1.0 && q * n == 1.0
    ensures p * c == q
  {
    assert (p * c) * n == 1.0;
    assert (p * c) * (n * q) == ((p * c) * n) * q;
  }

  lemma Stretch(x: real, y: real, m: real, n: real)
    requires m > 0.0 && n > 0.0 && Mul(1.0 / m, x) == Mul(1.0 / n, y)
    ensures Mul(n, 1.0 / m) > 0.0 && y == Mul(Mul(n, 1.0 / m), x)
  {
    var p, q := 1.0 / m, 1.0 / n;
    MulSigns(n, p);
    assert q * n == 1.0;
    assert (n * p) * x == n * (p * x);
    assert n * (q * y) == (q * n) * y;
  }

  lemma ScaledNormalizesAlike(norm: Vector -> real, c: real, a: Vector)
    requires IsNorm(norm) && c > 0.0 && norm(a) > 0.0
    ensures Normalize(norm, Scale(c, a)) == Normalize(norm, a)
  {
    hide Mul;
    NormScaled(norm, c, a);
    MulSigns(c, norm(a));
    forall i | 0 <= i < |a| ensures Normalize(norm, Scale(c, a))[i] == Normalize(norm, a)[i] {
      Shrink(c, norm(a), a[i]);
    }
  }

  lemma Stretched(norm: Vector -> real, a: Vector, b: Vector)
    requires norm(a) > 0.0 && norm(b) > 0.0 && Normalize(norm, a) == Normalize(norm, b)
    ensures exists c :: c > 0.0 && b == Scale(c, a)
  {
    hide Mul;
    var m, n := norm(a), norm(b);
    assert |a| == |Normalize(norm, a)| == |Normalize(norm, b)| == |b|;
    if a == [] {
      assert b == Scale(1.0, a);
    } else {
      var c := Mul(n, 1.0 / m);
      forall i | 0 <= i < |a| ensures c > 0.0 && b[i] == Mul(c, a[i]) {
        assert Normalize(norm, a)[i] == Mul(1.0 / m, a[i]) && Normalize(norm, b)[i] == Mul(1.0 / n, b[i]);
        Stretch(a[i], b[i], m, n);
      }
      assert b == Scale(c, a);
    }
  }

  /** Normalisation identifies two vectors exactly when one is a positive multiple
      of the other. */
  lemma SameDirection(norm: Vector -> real, a: Vector, b: Vector)
    requires IsNorm(norm) && norm(a) > 0.0 && norm(b) > 0.0
    ensures Normalize(norm, a) == Normalize(norm, b) <==> exists c :: c > 0.0 && b == Scale(c, a)
  {
    hide Mul, Normalize;
    if Normalize(norm, a) == Normalize(norm, b) { Stretched(norm, a, b); }
    if c :| c > 0.0 && b == Scale(c, a) { ScaledNormalizesAlike(norm, c, a); }
  }

  lemma HasNorm(norm: Vector -> real, v: Vector)
    requires IsNorm(norm) && !ZeroOrEmpty(v)
    ensures norm(v) > 0.0
  {
    hide Dot;
    if norm(v) == 0.0 { MulZero(norm(v)); }
  }

  // All vectors point the same way as the first.
  ghost predicate Collinear(vectors: seq<Vector>) {
    forall j :: 0 <= j < |vectors| ==> exists c :: c > 0.0 && vectors[j] == Scale(c, vectors[0])
  }

  // Equal directions after normalisation, in terms of the raw vectors.
  lemma SameUnits(norm: Vector -> real, targets: seq<Vector>)
    requires IsNorm(norm) && NoneZero(targets)
    ensures Constant(NormalizeAll(norm, targets)) <==> Collinear(targets)
  {
    hide ZeroOrEmpty, Normalize;
    var all := NormalizeAll(norm, targets);
    forall j | 0 <= j < |targets|
      ensures all[j] == all[0] <==> exists c :: c > 0.0 && targets[j] == Scale(c, targets[0])
    {
      HasNorm(norm, targets[0]);
      HasNorm(norm, targets[j]);
      SameDirection(norm, targets[0], targets[j]);
    }
  }

  /** Collinear targets score a perfect 1 whatever the queries are. */
  lemma CollinearScorePerfect(norm: Vector -> real, discount: Discount, queries: seq<Vector>, targets: seq<Vector>,
      ranks: seq<nat>)
    requires IsNorm(norm) && IsDiscount(discount) && ranks != [] && NoneZero(targets) && Collinear(targets)
    requires RanksOf(Dot, NormalizeAll(norm, queries), NormalizeAll(norm, targets), ranks)
    ensures MetricsOf(discount, ranks) == Perfect(|ranks|)
  {
    hide ZeroOrEmpty, MetricsOf, Rank;
    SameUnits(norm, targets);
    ConstantTargetsTie(Dot, NormalizeAll(norm, queries), NormalizeAll(norm, targets));
    TiesScorePerfect(Dot, discount, NormalizeAll(norm, queries), NormalizeAll(norm, targets), ranks);
  }

  // ---- Exactly which targets score perfectly whatever the queries ----

  predicate NoneZero(vectors: seq<Vector>) { forall j :: 0 <= j < |vectors| ==> !ZeroOrEmpty(vectors[j]) }

  predicate OneDimension(vectors: seq<Vector>) { forall j :: 0 <= j < |vectors| ==> |vectors[j]| == |vectors[0]| }

  // The target vectors are indistinguishable to every query vector.
  ghost predicate AllSeenAlike(targets: seq<Vector>) {
    forall q: Vector, j :: 0 <= j < |targets| ==> Dot(q, targets[j]) == Dot(q, targets[0])
  }

  // Any queries without a zero vector score a perfect 1 on these targets.
  ghost predicate AlwaysPerfect(norm: Vector -> real, discount: Discount, targets: seq<Vector>) {
    forall queries: seq<Vector>, ranks: seq<nat> ::
      NoneZero(queries) && RanksOf(Dot, NormalizeAll(norm, queries), NormalizeAll(norm, targets), ranks) ==>
      MetricsOf(discount, ranks) == Perfect(|ranks|)
  }

  lemma SquareOfDifference(x: real, y: real)
    ensures Mul(x, x) + Mul(y, y) - 2.0 * Mul(x, y) >= 0.0
    ensures Mul(x, x) + Mul(y, y) - 2.0 * Mul(x, y) == 0.0 <==> x == y
  {
    var d := x - y;
    assert x * x + y * y - 2.0 * (x * y) == d * d;
    if d > 0.0 { MulSigns(d, d); }
    if d < 0.0 {
      MulSigns(-d, -d);
      assert (-d) * (-d) == d * d;
    }
  }

  // The squared distance of two vectors, which is 0 for equal ones only.
  lemma {:induction false} Distance(u: Vector, v: Vector)
    requires |u| == |v|
    ensures Dot(u, u) + Dot(v, v) - 2.0 * Dot(u, v) >= 0.0
    ensures Dot(u, u) + Dot(v, v) - 2.0 * Dot(u, v) == 0.0 <==> u == v
  {
    hide Mul;
    if u != [] {
      Distance(u[1..], v[1..]);
      SquareOfDifference(u[0], v[0]);
      assert u == [u[0]] + u[1..] && v == [v[0]] + v[1..];
    }
  }

  lemma UnitSquare(n: real, p: real)
    requires n > 0.0 && p == 1.0 / n
    ensures Mul(Mul(p, p), Mul(n, n)) == 1.0
  {
    assert p * n == 1.0;
    assert (p * p) * (n * n) == (p * n) * (p * n);
  }

  lemma HasUnitLength(norm: Vector -> real, v: Vector)
    requires IsNorm(norm) && norm(v) > 0.0
    ensures Dot(Normalize(norm, v), Normalize(norm, v)) == 1.0
  {
    var p := 1.0 / norm(v);
    DotScaled(p, p, v, v);
    UnitSquare(norm(v), p);
    hide Mul, Dot, Scale;
  }

  // A target is more similar to itself than any target of another direction.
  lemma OwnDirectionWins(norm: Vector -> real, a: Vector, b: Vector)
    requires IsNorm(norm) && !ZeroOrEmpty(a) && !ZeroOrEmpty(b) && |a| == |b|
    ensures var u, v := Normalize(norm, a), Normalize(norm, b);
      Dot(u, u) == 1.0 && Dot(u, v) <= 1.0 && (Dot(u, v) == 1.0 <==> u == v)
  {
    var u, v := Normalize(norm, a), Normalize(norm, b);
    HasNorm(norm, a);
    HasNorm(norm, b);
    HasUnitLength(norm, a);
    HasUnitLength(norm, b);
    Distance(u, v);
  }

  lemma RanksExist(qs: seq<Vector>, ts: seq<Vector>) returns (ranks: seq<nat>)
    requires |qs| == |ts|
    ensures RanksOf(Dot, qs, ts, ranks)
  {
    hide Dot, Rank;
    ranks := seq(|qs|, (i: nat) requires i < |qs| => Rank(Dot, qs, ts, i));
  }

  // Put to query 0, a target of another direction than target 0 beats it.
  lemma Beaten(discount: Discount, qs: seq<Vector>, ts: seq<Vector>, ranks: seq<nat>, j: nat)
    requires IsDiscount(discount) && RanksOf(Dot, qs, ts, ranks) && j < |ts|
    requires qs[0] == ts[j] && Dot(ts[j], ts[j]) > Dot(ts[j], ts[0])
    ensures MetricsOf(discount, ranks) != Perfect(|ranks|)
  {
    hide MetricsOf, Dot, Rank;
    assert Beats(Dot, qs, ts, 0)(j);
    TiesScorePerfect(Dot, discount, qs, ts, ranks);
  }

  lemma BeatenByQuery(norm: Vector -> real, discount: Discount, targets: seq<Vector>, j: nat)
    requires IsNorm(norm) && IsDiscount(discount) && NoneZero(targets) && OneDimension(targets)
    requires j < |targets| && Normalize(norm, targets[j]) != Normalize(norm, targets[0])
    ensures !AlwaysPerfect(norm, discount, targets)
    ensures !AllSeenAlike(NormalizeAll(norm, targets))
  {
    OwnDirectionWins(norm, targets[j], targets[0]);
    hide ZeroOrEmpty, Dot, Normalize, AlwaysPerfect;
    var ts := NormalizeAll(norm, targets);
    assert ts[0] == Normalize(norm, targets[0]) && ts[j] == Normalize(norm, targets[j]);
    hide NormalizeAll;
    assert Dot(ts[j], ts[j]) > Dot(ts[j], ts[0]);
    PutToAll(norm, discount, targets, j);
  }

  // The reply that puts target j to every query is not perfect.
  lemma PutToAll(norm: Vector -> real, discount: Discount, targets: seq<Vector>, j: nat)
    requires IsDiscount(discount) && NoneZero(targets) && j < |targets|
    requires var ts := NormalizeAll(norm, targets); Dot(ts[j], ts[j]) > Dot(ts[j], ts[0])
    ensures !AlwaysPerfect(norm, discount, targets)
  {
    hide ZeroOrEmpty, Dot, Normalize, MetricsOf, RanksOf, IsDiscount;
    var queries := seq(|targets|, (i: nat) => targets[j]);
    var qs, ts := NormalizeAll(norm, queries), NormalizeAll(norm, targets);
    assert qs[0] == ts[j];
    hide NormalizeAll;
    var ranks := RanksExist(qs, ts);
    Beaten(discount, qs, ts, ranks, j);
    assert NoneZero(queries);
  }

  /** The condition on the targets alone is exact: they are collinear exactly when
      no query vector tells them apart once normalised, and exactly when every reply
      with these targets that has no zero query scores a perfect 1. */
  lemma CollinearExactly(norm: Vector -> real, discount: Discount, targets: seq<Vector>)
    requires IsNorm(norm) && IsDiscount(discount) && targets != [] && NoneZero(targets) && OneDimension(targets)
    ensures Collinear(targets) <==> AllSeenAlike(NormalizeAll(norm, targets))
    ensures Collinear(targets) <==> AlwaysPerfect(norm, discount, targets)
  {
    hide ZeroOrEmpty, MetricsOf, Dot, Rank, Normalize, OneDimension;
    SameUnits(norm, targets);
    if Collinear(targets) {
      forall queries: seq<Vector>, ranks: seq<nat>
        | NoneZero(queries) && RanksOf(Dot, NormalizeAll(norm, queries), NormalizeAll(norm, targets), ranks)
        ensures MetricsOf(discount, ranks) == Perfect(|ranks|)
      {
        CollinearScorePerfect(norm, discount, queries, targets, ranks);
      }
    } else {
      var all := NormalizeAll(norm, targets);
      var j :| 0 <= j < |all| && all[j] != all[0];
      BeatenByQuery(norm, discount, targets, j);
    }
  }

  // ---- Exactly which replies tie ----

  // Every similarity of a query equals the one to its own target.
  ghost predicate Tied(dot: Similarity, queries: seq<Vector>, targets: seq<Vector>) {
    forall i, j :: 0 <= i < |queries| && 0 <= j < |targets| ==>
      Sim(dot, queries, targets, i, j) == Sim(dot, queries, targets, i, i)
  }

  // The same on the reply as it came, before any normalisation or ranking.
  ghost predicate TiedReply(norm: Vector -> real, queries: seq<Vector>, targets: seq<Vector>)
    requires |queries| == |targets|
  {
    forall i, j :: 0 <= i < |queries| && 0 <= j < |targets| ==>
      Mul(norm(targets[i]), Dot(queries[i], targets[j])) == Mul(norm(targets[j]), Dot(queries[i], targets[i]))
  }

  // No other target's similarity exceeds the own one, on the reply as it came.
  ghost predicate UnbeatenReply(norm: Vector -> real, queries: seq<Vector>, targets: seq<Vector>)
    requires |queries| == |targets|
  {
    forall i, j :: 0 <= i < |queries| && 0 <= j < |targets| ==>
      Mul(norm(targets[i]), Dot(queries[i], targets[j])) <= Mul(norm(targets[j]), Dot(queries[i], targets[i]))
  }

  lemma MulOrder(c: real, x: real, y: real)
    requires c > 0.0
    ensures Mul(c, x) < Mul(c, y) <==> x < y
    ensures Mul(c, x) == Mul(c, y) <==> x == y
  {
    if x < y { MulSigns(c, y - x); }
    if y < x { MulSigns(c, x - y); }
  }

  // Multiplying out by l * m * n.
  lemma MultiplyOut(l: real, m: real, n: real, x: real)
    requires l > 0.0 && m > 0.0 && n > 0.0
    ensures Mul(Mul(Mul(l, m), n), Mul(Mul(1.0 / l, 1.0 / n), x)) == Mul(m, x)
  {
    var p, q := 1.0 / l, 1.0 / n;
    assert l * p == 1.0 && n * q == 1.0;
    assert ((l * m) * n) * ((p * q) * x) == ((l * p) * (n * q)) * (m * x);
  }

  lemma CommuteFactors(l: real, m: real, n: real)
    ensures Mul(Mul(l, m), n) == Mul(Mul(l, n), m)
  {
    assert (l * m) * n == (l * n) * m;
  }

  // Comparing two normalised similarities is comparing the raw ones crosswise.
  lemma Crosswise(norm: Vector -> real, q: Vector, own: Vector, other: Vector)
    requires norm(q) > 0.0 && norm(own) > 0.0 && norm(other) > 0.0
    ensures var x, y := Dot(q, other), Dot(q, own);
      var x', y' := Dot(Normalize(norm, q), Normalize(norm, other)), Dot(Normalize(norm, q), Normalize(norm, own));
      && (x' == y' <==> Mul(norm(own), x) == Mul(norm(other), y))
      && (x' > y' <==> Mul(norm(own), x) > Mul(norm(other), y))
  {
    var l, m, n := norm(q), norm(own), norm(other);
    DotScaled(1.0 / l, 1.0 / n, q, other);
    DotScaled(1.0 / l, 1.0 / m, q, own);
    hide Mul, Dot, Scale;
    var c := Mul(Mul(l, m), n);
    MulSigns(l, m);
    MulSigns(Mul(l, m), n);
    MultiplyOut(l, m, n, Dot(q, other));
    MultiplyOut(l, n, m, Dot(q, own));
    CommuteFactors(l, m, n);
    var x', y' := Dot(Normalize(norm, q), Normalize(norm, other)), Dot(Normalize(norm, q), Normalize(norm, own));
    MulOrder(c, x', y');
  }

  // The similarity of query i to its own target and to target j, compared raw.
  lemma PairCrosswise(norm: Vector -> real, queries: seq<Vector>, targets: seq<Vector>, i: nat, j: nat)
    requires IsNorm(norm) && |queries| == |targets| && NoneZero(queries) && NoneZero(targets)
    requires i < |targets| && j < |targets|
    ensures var qs, ts := NormalizeAll(norm, queries), NormalizeAll(norm, targets);
      var x := Mul(norm(targets[i]), Dot(queries[i], targets[j]));
      var y := Mul(norm(targets[j]), Dot(queries[i], targets[i]));
      && (Sim(Dot, qs, ts, i, j) == Sim(Dot, qs, ts, i, i) <==> x == y)
      && (Beats(Dot, qs, ts, i)(j) <==> x > y)
  {
    hide ZeroOrEmpty, Dot, Normalize, Mul;
    HasNorm(norm, queries[i]);
    HasNorm(norm, targets[i]);
    HasNorm(norm, targets[j]);
    Crosswise(norm, queries[i], targets[i], targets[j]);
  }

  /** What a reply without a zero vector must be for all its similarities to tie,
      and for its score to be perfect: both can be read off the raw vectors before
      the ranking.  A tied reply always scores a perfect 1. */
  lemma TiedExactly(norm: Vector -> real, discount: Discount, queries: seq<Vector>, targets: seq<Vector>,
      ranks: seq<nat>)
    requires IsNorm(norm) && IsDiscount(discount) && ranks != [] && NoneZero(queries) && NoneZero(targets)
    requires RanksOf(Dot, NormalizeAll(norm, queries), NormalizeAll(norm, targets), ranks)
    ensures Tied(Dot, NormalizeAll(norm, queries), NormalizeAll(norm, targets)) <==> TiedReply(norm, queries, targets)
    ensures MetricsOf(discount, ranks) == Perfect(|ranks|) <==> UnbeatenReply(norm, queries, targets)
    ensures TiedReply(norm, queries, targets) ==> MetricsOf(discount, ranks) == Perfect(|ranks|)
  {
    hide NoneZero, MetricsOf, Dot, Rank, NormalizeAll, Mul, Sim, Beats;
    var qs, ts := NormalizeAll(norm, queries), NormalizeAll(norm, targets);
    TiesScorePerfect(Dot, discount, qs, ts, ranks);
    forall i, j | 0 <= i < |queries| && 0 <= j < |targets|
      ensures Sim(Dot, qs, ts, i, j) == Sim(Dot, qs, ts, i, i) <==>
        Mul(norm(targets[i]), Dot(queries[i], targets[j])) == Mul(norm(targets[j]), Dot(queries[i], targets[i]))
    {
      PairCrosswise(norm, queries, targets, i, j);
    }
    UnbeatenExactly(norm, queries, targets);
  }

  lemma UnbeatenExactly(norm: Vector -> real, queries: seq<Vector>, targets: seq<Vector>)
    requires IsNorm(norm) && |queries| == |targets| && NoneZero(queries) && NoneZero(targets)
    ensures NeverBeaten(Dot, NormalizeAll(norm, queries), NormalizeAll(norm, targets)) <==>
      UnbeatenReply(norm, queries, targets)
  {
    hide NoneZero, Dot, NormalizeAll, Mul, Beats;
    var qs, ts := NormalizeAll(norm, queries), NormalizeAll(norm, targets);
    forall i: nat, j: nat | i < |queries| && j < |targets|
      ensures Beats(Dot, qs, ts, i)(j) <==>
        Mul(norm(targets[i]), Dot(queries[i], targets[j])) > Mul(norm(targets[j]), Dot(queries[i], targets[i]))
    {
      PairCrosswise(norm, queries, targets, i, j);
    }
    if NeverBeaten(Dot, qs, ts) {
      forall i, j | 0 <= i < |queries| && 0 <= j < |targets|
        ensures Mul(norm(targets[i]), Dot(queries[i], targets[j])) <=
          Mul(norm(targets[j]), Dot(queries[i], targets[i]))
      {
        assert !Beats(Dot, qs, ts, i)(j);
      }
    }
    if UnbeatenReply(norm, queries, targets) {
      forall i, j | 0 <= i < |qs| && 0 <= j < |ts| ensures !Beats(Dot, qs, ts, i)(j) {
        assert Mul(norm(targets[i]), Dot(queries[i], targets[j])) <=
          Mul(norm(targets[j]), Dot(queries[i], targets[i]));
      }
    }
  }

  // ---- Two replies the guard lets through ----

  /** Targets of one direction get past the guard. */
  lemma GuardMissesCollinear()
    ensures var targets: seq<Vector> := [[1.0], [2.0]];
      !Degenerate(targets, targets) && Collinear(targets)
  {
    var targets: seq<Vector> := [[1.0], [2.0]];
    assert Dot([1.0], [1.0]) == 1.0 && Dot([2.0], [2.0]) == 4.0;
    assert [1.0] == Scale(1.0, [1.0]) && [2.0] == Scale(2.0, [1.0]);
    assert targets[0] == [1.0] && targets[1] == [2.0];
  }

  /** So do targets of different directions when every query is at right angles to
      them: all similarities tie at 0 and the score is a perfect 1. */
  lemma GuardMissesTied(norm: Vector -> real, discount: Discount, ranks: seq<nat>)
    returns (targets: seq<Vector>, queries: seq<Vector>)
    requires IsNorm(norm) && IsDiscount(discount)
    ensures targets == [[1.0, 0.0, 0.0], [0.0, 1.0, 0.0]] && queries == [[0.0, 0.0, 1.0], [0.0, 0.0, 1.0]]
    ensures !Degenerate(targets, queries)
    ensures !Collinear(targets) && TiedReply(norm, queries, targets)
    ensures RanksOf(Dot, NormalizeAll(norm, queries), NormalizeAll(norm, targets), ranks) ==>
      MetricsOf(discount, ranks) == Perfect(2)
  {
    var a, b, q := BasisVectors();
    targets, queries := [a, b], [q, q];
    TwoTied(norm, a, b, q);
    SecondDiffers(a, b);
    NotDegenerate(a, b, q);
    if RanksOf(Dot, NormalizeAll(norm, queries), NormalizeAll(norm, targets), ranks) {
      hide Dot, MetricsOf, Rank, NormalizeAll, Collinear, ZeroOrEmpty, TiedReply;
      TiedExactly(norm, discount, queries, targets, ranks);
    }
  }

  lemma BasisVectors() returns (a: Vector, b: Vector, q: Vector)
    ensures a == [1.0, 0.0, 0.0] && b == [0.0, 1.0, 0.0] && q == [0.0, 0.0, 1.0]
    ensures Dot(a, a) == Dot(b, b) == Dot(q, q) == 1.0
    ensures Dot(q, a) == Dot(q, b) == 0.0 && forall c :: b != Scale(c, a)
  {
    a, b, q := [1.0, 0.0, 0.0], [0.0, 1.0, 0.0], [0.0, 0.0, 1.0];
    Dot3(a, a);
    Dot3(b, b);
    Dot3(q, q);
    Dot3(q, a);
    Dot3(q, b);
    hide Dot;
    assert a[1] == 0.0 && b[1] == 1.0;
    NotScaled(a, b);
  }

  lemma NotDegenerate(a: Vector, b: Vector, q: Vector)
    requires |a| > 0 && |b| > 0 && |q| > 0 && Dot(a, a) == Dot(b, b) == Dot(q, q) == 1.0 && a != b
    ensures !Degenerate([a, b], [q, q]) && NoneZero([a, b]) && NoneZero([q, q])
  {
    hide Dot;
    var targets, queries := [a, b], [q, q];
    assert targets[0] == a && targets[1] == b && queries[0] == q && queries[1] == q;
  }

  lemma NotScaled(a: Vector, b: Vector)
    requires |a| == |b| == 3 && a[1] == 0.0 && b[1] == 1.0
    ensures forall c :: b != Scale(c, a)
  {
    forall c ensures b != Scale(c, a) {
      MulZero(c);
      assert Scale(c, a)[1] == Mul(c, a[1]);
    }
  }

  lemma SecondDiffers(a: Vector, b: Vector)
    requires forall c :: b != Scale(c, a)
    ensures !Collinear([a, b])
  {
    hide Scale;
    assert [a, b][1] == b && [a, b][0] == a;
  }

  lemma TwoTied(norm: Vector -> real, a: Vector, b: Vector, q: Vector)
    requires Dot(q, a) == 0.0 && Dot(q, b) == 0.0
    ensures TiedReply(norm, [q, q], [a, b])
  {
    hide Dot, Mul;
    forall i, j | 0 <= i < 2 && 0 <= j < 2
      ensures Mul(norm([a, b][i]), Dot([q, q][i], [a, b][j])) == Mul(norm([a, b][j]), Dot([q, q][i], [a, b][i]))
    {
      MulZero(norm([a, b][i]));
      MulZero(norm([a, b][j]));
    }
  }

  lemma Dot3(u: Vector, v: Vector)
    requires |u| == |v| == 3
    ensures Dot(u, v) == Mul(u[0], v[0]) + Mul(u[1], v[1]) + Mul(u[2], v[2])
  {
    hide Mul;
    var u1, v1 := u[1..], v[1..];
    var u2, v2 := u1[1..], v1[1..];
    assert u1[0] == u[1] && v1[0] == v[1] && u2[0] == u[2] && v2[0] == v[2];
    assert u2[1..] == [] && v2[1..] == [];
    assert Dot(u2, v2) == Mul(u[2], v[2]) + 0.0;
    assert Dot(u1, v1) == Mul(u[1], v[1]) + Dot(u2, v2);
  }
}
