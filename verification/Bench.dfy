/**
 Benchmark scoring: the measurements of one strategy are aggregated per category
 and overall, and two strategies are compared by token ratios.  Ratios and means
 are exact reals.
 */
module Bench {
  import opened Basics
  import opened Sorting

  datatype ItemMetrics = ItemMetrics(toolCalls: nat, tokens: nat, bytes: nat, recall: real)
  datatype Question = Question(category: string, truth: seq<string>)
  datatype Item = Item(question: Question, planLen: nat, blobs: seq<string>)
  datatype StrategyAgg = StrategyAgg(totalTokens: nat, totalCalls: nat, meanTokens: real, meanRecall: real, n: nat)
  datatype StrategyReport = StrategyReport(title: string, perCategory: map<string, StrategyAgg>, overall: StrategyAgg)

  // The tokenizer, the UTF-8 length and the case- and space-insensitive normal form.
  datatype Counter = Counter(count: string -> nat, byteLen: string -> nat, normalize: string -> string)

  // ---- One question ----

  predicate Contains(hay: string, needle: string) {
    exists i :: 0 <= i <= |hay| && needle <= hay[i..]
  }

  function FoundIn(normalize: string -> string, truth: seq<string>, hay: string): (n: nat)
    ensures n <= |truth|
    ensures n == |truth| <==> forall f :: f in truth ==> Contains(hay, normalize(f))
  {
    if truth == [] then 0
    else (if Contains(hay, normalize(truth[0])) then 1 else 0) + FoundIn(normalize, truth[1..], hay)
  }

  function AnswerRecall(normalize: string -> string, truth: seq<string>, retrieved: string): real {
    if truth == [] then 1.0 else FoundIn(normalize, truth, normalize(retrieved)) as real / |truth| as real
  }

  /** Recall is a share, and is full exactly when every fact was retrieved. */
  lemma FullRecall(normalize: string -> string, truth: seq<string>, retrieved: string)
    ensures 0.0 <= AnswerRecall(normalize, truth, retrieved) <= 1.0
    ensures AnswerRecall(normalize, truth, retrieved) == 1.0 <==>
      forall f :: f in truth ==> Contains(normalize(retrieved), normalize(f))
  {
    if truth != [] { Share(FoundIn(normalize, truth, normalize(retrieved)), |truth|); }
  }

  lemma Share(k: nat, n: nat)
    requires k <= n && n > 0
    ensures 0.0 <= k as real / n as real <= 1.0
    ensures k as real / n as real == 1.0 <==> k == n
  {
    hide Times;
    TimesIsProduct(0.0, n);
    TimesIsProduct(1.0, n);
    Quotient(k as real, n, 0.0, 1.0);
    Quotient(k as real, n, 1.0, 1.0);
  }

  function SumOf(f: string -> nat, blobs: seq<string>): nat {
    if blobs == [] then 0 else f(blobs[0]) + SumOf(f, blobs[1..])
  }

  function Joined(blobs: seq<string>): string {
    if blobs == [] then "" else if |blobs| == 1 then blobs[0] else blobs[0] + "\n" + Joined(blobs[1..])
  }

  function Measure(counter: Counter, item: Item): ItemMetrics {
    ItemMetrics(item.planLen, SumOf(counter.count, item.blobs), SumOf(counter.byteLen, item.blobs),
                AnswerRecall(counter.normalize, item.question.truth, Joined(item.blobs)))
  }

  lemma {:induction false} SumOfConcat(f: string -> nat, a: seq<string>, b: seq<string>)
    ensures SumOf(f, a + b) == SumOf(f, a) + SumOf(f, b)
  {
    if a == [] {
      assert a + b == b;
    } else {
      assert (a + b)[1..] == a[1..] + b;
      SumOfConcat(f, a[1..], b);
    }
  }

  lemma {:induction false} JoinedConcat(a: seq<string>, b: seq<string>)
    requires a != [] && b != []
    ensures Joined(a + b) == Joined(a) + "\n" + Joined(b)
  {
    assert (a + b)[1..] == a[1..] + b;
    if |a| > 1 {
      JoinedConcat(a[1..], b);
      assert Joined(a + b) == a[0] + "\n" + (Joined(a[1..]) + "\n" + Joined(b));
    }
  }

  // The facts whose normal form occurs in the normal form of the text.
  ghost function FactsIn(normalize: string -> string, truth: seq<string>, text: string): set<nat> {
    set i: nat | i < |truth| && Contains(normalize(text), normalize(truth[i]))
  }

  lemma {:induction false} FoundExactly(normalize: string -> string, truth: seq<string>, text: string)
    ensures FoundIn(normalize, truth, normalize(text)) == |FactsIn(normalize, truth, text)|
  {
    if truth == [] {
      assert FactsIn(normalize, truth, text) == {};
    } else {
      hide Contains, FactsIn;
      FoundExactly(normalize, truth[1..], text);
      FactsNext(normalize, truth, text);
    }
  }

  lemma FactsNext(normalize: string -> string, truth: seq<string>, text: string)
    requires truth != []
    ensures |FactsIn(normalize, truth, text)| ==
      |FactsIn(normalize, truth[1..], text)| + if Contains(normalize(text), normalize(truth[0])) then 1 else 0
  {
    hide Contains;
    var all, rest := FactsIn(normalize, truth, text), FactsIn(normalize, truth[1..], text);
    var shifted := set i: nat | i in rest :: i + 1;
    SuccessorsCount(rest, shifted);
    var head: set<nat> := if Contains(normalize(text), normalize(truth[0])) then {0} else {};
    forall i: nat ensures i in all <==> i in head + shifted {
      if i > 0 { assert i in all <==> i - 1 in rest; }
    }
    assert all == head + shifted;
  }

  lemma {:induction false} SuccessorsCount(a: set<nat>, b: set<nat>)
    requires b == set i: nat | i in a :: i + 1
    ensures |b| == |a|
  {
    if a != {} {
      var x :| x in a;
      var a' := a - {x};
      var b' := set i: nat | i in a' :: i + 1;
      SuccessorsCount(a', b');
      forall y: nat ensures y in b <==> y in b' + {x + 1} {
        if y > 0 && y - 1 in a && y != x + 1 { assert y - 1 in a'; }
      }
      assert b == b' + {x + 1} && x + 1 !in b';
    }
  }

  /** A question costs its plan's calls, and the tokens and bytes of its blobs, each
      counted by itself. */
  lemma MeasureCosts(counter: Counter, q: Question, planLen: nat, blobs: seq<string>, more: seq<string>, blob: string)
    ensures var (m, m', one) :=
        (Measure(counter, Item(q, planLen, blobs)), Measure(counter, Item(q, planLen, more)),
         Measure(counter, Item(q, planLen, [blob])));
      var all := Measure(counter, Item(q, planLen, blobs + more));
      && m.toolCalls == planLen
      && one.tokens == counter.count(blob) && one.bytes == counter.byteLen(blob)
      && all.tokens == m.tokens + m'.tokens && all.bytes == m.bytes + m'.bytes
  {
    SumOfConcat(counter.count, blobs, more);
    SumOfConcat(counter.byteLen, blobs, more);
    SumOfOne(counter.count, blob);
    SumOfOne(counter.byteLen, blob);
    hide SumOf, AnswerRecall;
  }

  lemma SumOfOne(f: string -> nat, x: string)
    ensures SumOf(f, [x]) == f(x)
  {
    assert [x][1..] == [];
  }

  /** Its recall is the share of its facts that occur in the blobs joined by line ends. */
  lemma MeasureRecall(counter: Counter, q: Question, planLen: nat, blobs: seq<string>)
    ensures var recall := Measure(counter, Item(q, planLen, blobs)).recall;
      if q.truth == [] then recall == 1.0
      else recall * |q.truth| as real == |FactsIn(counter.normalize, q.truth, Joined(blobs))| as real
  {
    FoundExactly(counter.normalize, q.truth, Joined(blobs));
    hide Joined, FoundIn, SumOf;
    if q.truth != [] {
      Undo(FoundIn(counter.normalize, q.truth, counter.normalize(Joined(blobs))) as real, |q.truth| as real);
    }
  }

  // ---- Aggregation ----

  datatype Counts = Counts(tokens: nat, calls: nat, n: nat)

  datatype Sums = Sums(tokens: nat, calls: nat, n: nat, recall: real) {
    function Counted(): Counts { Counts(tokens, calls, n) }
  }

  function AddCounts(a: Counts, b: Counts): Counts {
    Counts(a.tokens + b.tokens, a.calls + b.calls, a.n + b.n)
  }

  function Add(a: Sums, b: Sums): Sums {
    Sums(a.tokens + b.tokens, a.calls + b.calls, a.n + b.n, a.recall + b.recall)
  }

  function One(m: ItemMetrics): Sums { Sums(m.tokens, m.toolCalls, 1, m.recall) }

  function Totals(ms: seq<ItemMetrics>): Sums {
    if ms == [] then Sums(0, 0, 0, 0.0) else Add(Totals(ms[..|ms| - 1]), One(ms[|ms| - 1]))
  }

  function Aggregate(ms: seq<ItemMetrics>): StrategyAgg {
    var t := Totals(ms);
    StrategyAgg(t.tokens, t.calls, if ms == [] then 0.0 else t.tokens as real / |ms| as real,
                if ms == [] then 0.0 else t.recall / |ms| as real, |ms|)
  }

  function CountsOf(agg: StrategyAgg): Counts { Counts(agg.totalTokens, agg.totalCalls, agg.n) }

  /** An aggregate loses no total, and its means times n give the sums back. */
  lemma AggregateKeepsSums(ms: seq<ItemMetrics>)
    ensures CountsOf(Aggregate(ms)) == Totals(ms).Counted()
    ensures Aggregate(ms).meanRecall * |ms| as real == Totals(ms).recall
    ensures Aggregate(ms).meanTokens * |ms| as real == Totals(ms).tokens as real
  {
    hide Totals;
    AggregateCounts(ms);
    if ms == [] { NoTotals(); }
    MeanTimesCount(Totals(ms).recall, |ms|);
    MeanTimesCount(Totals(ms).tokens as real, |ms|);
  }

  /** The totals of two lots of questions add up, and one question counts its own. */
  lemma {:induction false} TotalsAddUp(a: seq<ItemMetrics>, b: seq<ItemMetrics>, m: ItemMetrics)
    ensures Totals([m]) == Sums(m.tokens, m.toolCalls, 1, m.recall)
    ensures var (t, ta, tb) := (Totals(a + b), Totals(a), Totals(b));
      && t.tokens == ta.tokens + tb.tokens && t.calls == ta.calls + tb.calls && t.n == ta.n + tb.n
      && t.recall == ta.recall + tb.recall
    decreases |b|
  {
    assert [m][..0] == [];
    if b == [] {
      assert a + b == a;
    } else {
      var n := |b| - 1;
      TotalsAddUp(a, b[..n], m);
      assert (a + b)[..|a + b| - 1] == a + b[..n];
    }
  }

  lemma NoTotals()
    ensures Totals([]) == Sums(0, 0, 0, 0.0)
  {
  }

  lemma MeanTimesCount(x: real, n: nat)
    requires n == 0 ==> x == 0.0
    ensures (if n == 0 then 0.0 else x / n as real) * n as real == x
  {
    if n > 0 { Undo(x, n as real); }
  }

  lemma AggregateCounts(ms: seq<ItemMetrics>)
    ensures CountsOf(Aggregate(ms)) == Totals(ms).Counted()
  {
    TotalsCount(ms);
  }

  lemma {:induction false} TotalsCount(ms: seq<ItemMetrics>)
    ensures Totals(ms).n == |ms|
  {
    if ms != [] { TotalsCount(ms[..|ms| - 1]); }
  }

  // A measured item: its category and its metrics.
  datatype Measured = Measured(category: string, m: ItemMetrics)

  function Metrics(rows: seq<Measured>): seq<ItemMetrics> { Map((r: Measured) => r.m, rows) }

  function InCategory(rows: seq<Measured>, c: string): seq<ItemMetrics> {
    if rows == [] then [] else
    var n := |rows| - 1;
    InCategory(rows[..n], c) + if rows[n].category == c then [rows[n].m] else []
  }

  function MeasureItem(counter: Counter, item: Item): Measured {
    Measured(item.question.category, Measure(counter, item))
  }

  function MeasureAll(counter: Counter, items: seq<Item>): seq<Measured> {
    Map((it: Item) => MeasureItem(counter, it), items)
  }

  ghost predicate HasCategory(rows: seq<Measured>, c: string) { exists i :: 0 <= i < |rows| && rows[i].category == c }

  ghost predicate Reports(report: StrategyReport, rows: seq<Measured>) {
    && (forall c :: c in report.perCategory <==> HasCategory(rows, c))
    && (forall c :: c in report.perCategory ==> report.perCategory[c] == Aggregate(InCategory(rows, c)))
    && report.overall == Aggregate(Metrics(rows))
  }

  lemma HasCategoryAppend(rows: seq<Measured>, row: Measured, c: string)
    ensures HasCategory(rows + [row], c) <==> HasCategory(rows, c) || row.category == c
  {
    var all := rows + [row];
    assert all[|rows|] == row;
    if HasCategory(rows, c) {
      var i :| 0 <= i < |rows| && rows[i].category == c;
      assert all[i].category == c;
    }
  }

  lemma InCategoryAppend(rows: seq<Measured>, row: Measured, c: string)
    ensures InCategory(rows + [row], c) == InCategory(rows, c) + if row.category == c then [row.m] else []
  {
    assert (rows + [row])[..|rows|] == rows;
  }

  lemma MetricsAppend(rows: seq<Measured>, row: Measured)
    ensures Metrics(rows + [row]) == Metrics(rows) + [row.m]
  {
  }

  // The growing map holds every category's metrics in order.
  ghost predicate Collected(byCat: map<string, seq<ItemMetrics>>, rows: seq<Measured>) {
    && (forall c :: c in byCat <==> HasCategory(rows, c))
    && (forall c :: c in byCat ==> byCat[c] == InCategory(rows, c))
    && (forall c :: c !in byCat ==> InCategory(rows, c) == [])
  }

  function Pushed(byCat: map<string, seq<ItemMetrics>>, row: Measured): map<string, seq<ItemMetrics>> {
    byCat[row.category := (if row.category in byCat then byCat[row.category] else []) + [row.m]]
  }

  lemma CollectedAppend(byCat: map<string, seq<ItemMetrics>>, rows: seq<Measured>, row: Measured)
    requires Collected(byCat, rows)
    ensures Collected(Pushed(byCat, row), rows + [row])
  {
    hide InCategory, HasCategory;
    forall c ensures InCategory(rows + [row], c) == InCategory(rows, c) + (if row.category == c then [row.m] else []) &&
      (HasCategory(rows + [row], c) <==> HasCategory(rows, c) || row.category == c) {
      HasCategoryAppend(rows, row, c);
      InCategoryAppend(rows, row, c);
    }
  }

  lemma Assembled(report: StrategyReport, byCat: map<string, seq<ItemMetrics>>, rows: seq<Measured>)
    requires Collected(byCat, rows) && report.perCategory == map c | c in byCat :: Aggregate(byCat[c])
    requires report.overall == Aggregate(Metrics(rows))
    ensures Reports(report, rows)
  {
  }

  lemma AllMeasured(counter: Counter, items: seq<Item>)
    ensures |MeasureAll(counter, items)| == |items|
  {
  }

  lemma NextRow(counter: Counter, items: seq<Item>, i: nat)
    requires i < |items|
    ensures MeasureAll(counter, items)[..i + 1] == MeasureAll(counter, items)[..i] + [MeasureItem(counter, items[i])]
  {
    hide MeasureItem;
  }

  lemma NothingCollected()
    ensures Collected(map[], []) && Metrics([]) == []
  {
  }

  method ScoreStrategy(counter: Counter, title: string, items: seq<Item>) returns (report: StrategyReport)
    ensures report.title == title && Reports(report, MeasureAll(counter, items))
  {
    hide MeasureItem, MeasureAll, Collected, Metrics, Aggregate, Reports, Pushed;
    NothingCollected();
    AllMeasured(counter, items);
    var byCat: map<string, seq<ItemMetrics>> := map[];
    var all: seq<ItemMetrics> := [];
    ghost var rows := MeasureAll(counter, items);
    for i := 0 to |items|
      invariant Collected(byCat, rows[..i]) && all == Metrics(rows[..i])
    {
      var row := MeasureItem(counter, items[i]);
      NextRow(counter, items, i);
      CollectedAppend(byCat, rows[..i], row);
      MetricsAppend(rows[..i], row);
      byCat := Pushed(byCat, row);
      all := all + [row.m];
    }
    assert rows[..|items|] == rows;
    report := StrategyReport(title, map c | c in byCat :: Aggregate(byCat[c]), Aggregate(all));
    Assembled(report, byCat, rows);
  }

  function AllBlobs(items: seq<Item>): seq<string> {
    if items == [] then [] else AllBlobs(items[..|items| - 1]) + items[|items| - 1].blobs
  }

  function AllCalls(items: seq<Item>): nat {
    if items == [] then 0 else AllCalls(items[..|items| - 1]) + items[|items| - 1].planLen
  }

  lemma {:induction false} TotalsOfItems(counter: Counter, items: seq<Item>)
    ensures var t := Totals(Metrics(MeasureAll(counter, items)));
      t.tokens == SumOf(counter.count, AllBlobs(items)) && t.calls == AllCalls(items) && t.n == |items|
  {
    if items != [] {
      hide Metrics, MeasureAll, Totals, Joined, AnswerRecall;
      var n := |items| - 1;
      var rows := MeasureAll(counter, items[..n]);
      TotalsOfItems(counter, items[..n]);
      AllMeasured(counter, items);
      NextRow(counter, items, n);
      MeasuredPrefix(counter, items, n);
      MetricsAppend(rows, MeasureItem(counter, items[n]));
      TotalsAppend(Metrics(rows), Measure(counter, items[n]));
      SumOfConcat(counter.count, AllBlobs(items[..n]), items[n].blobs);
      assert MeasureAll(counter, items)[..n + 1] == MeasureAll(counter, items);
    } else {
      NothingCollected();
      assert MeasureAll(counter, items) == [];
    }
  }

  lemma MeasuredPrefix(counter: Counter, items: seq<Item>, n: nat)
    requires n <= |items|
    ensures MeasureAll(counter, items)[..n] == MeasureAll(counter, items[..n])
  {
    hide MeasureItem;
  }

  /** Overall a strategy costs the tokens of every blob of every question, and the calls
      of every plan. */
  lemma OverallCosts(counter: Counter, items: seq<Item>, report: StrategyReport)
    requires Reports(report, MeasureAll(counter, items))
    ensures report.overall.totalTokens == SumOf(counter.count, AllBlobs(items))
    ensures report.overall.totalCalls == AllCalls(items) && report.overall.n == |items|
  {
    TotalsOfItems(counter, items);
    AggregateCounts(Metrics(MeasureAll(counter, items)));
    hide Metrics, MeasureAll, Totals;
  }

  // ---- Conservation ----

  ghost function TotalOver(report: StrategyReport, cats: seq<string>): Counts
    requires forall c :: c in cats ==> c in report.perCategory
  {
    if cats == [] then Counts(0, 0, 0)
    else AddCounts(TotalOver(report, cats[1..]), CountsOf(report.perCategory[cats[0]]))
  }

  ghost function RowsOver(rows: seq<Measured>, cats: seq<string>): Sums {
    if cats == [] then Sums(0, 0, 0, 0.0) else Add(RowsOver(rows, cats[1..]), Totals(InCategory(rows, cats[0])))
  }

  lemma {:induction false} ReportedOver(report: StrategyReport, rows: seq<Measured>, cats: seq<string>)
    requires Reports(report, rows) && forall c :: c in cats ==> c in report.perCategory
    ensures TotalOver(report, cats) == RowsOver(rows, cats).Counted()
    decreases |cats|
  {
    hide Add, AddCounts, Aggregate, Totals, InCategory, CountsOf, Sums.Counted;
    if cats == [] {
      NothingCounted();
    } else {
      assert cats[0] in cats;
      ReportedOver(report, rows, cats[1..]);
      AggregateCounts(InCategory(rows, cats[0]));
      CountedAdd(RowsOver(rows, cats[1..]), Totals(InCategory(rows, cats[0])));
    }
  }

  lemma NothingCounted()
    ensures Sums(0, 0, 0, 0.0).Counted() == Counts(0, 0, 0)
  {
  }

  lemma CountedAdd(a: Sums, b: Sums)
    ensures Add(a, b).Counted() == AddCounts(a.Counted(), b.Counted())
  {
  }

  // One more row adds to the one listed category it belongs to.
  lemma {:induction false} OneMoreRow(rows: seq<Measured>, row: Measured, cats: seq<string>)
    requires Distinct(cats)
    ensures RowsOver(rows + [row], cats) ==
      if row.category in cats then Add(RowsOver(rows, cats), One(row.m)) else RowsOver(rows, cats)
    decreases |cats|
  {
    if cats != [] {
      var c, rest := cats[0], cats[1..];
      assert cats == [c] + rest && c !in rest;
      OneMoreRow(rows, row, rest);
      CategoryGrows(rows, row, c);
      OverStep(rows, cats);
      OverStep(rows + [row], cats);
      AddSwap(RowsOver(rows, rest), Totals(InCategory(rows, c)), One(row.m));
    }
  }

  lemma OverStep(rows: seq<Measured>, cats: seq<string>)
    requires cats != []
    ensures RowsOver(rows, cats) == Add(RowsOver(rows, cats[1..]), Totals(InCategory(rows, cats[0])))
  {
  }

  lemma AddSwap(a: Sums, b: Sums, m: Sums)
    ensures Add(Add(a, m), b) == Add(a, Add(b, m)) == Add(Add(a, b), m)
  {
  }

  lemma CategoryGrows(rows: seq<Measured>, row: Measured, c: string)
    ensures Totals(InCategory(rows + [row], c)) ==
      if row.category == c then Add(Totals(InCategory(rows, c)), One(row.m)) else Totals(InCategory(rows, c))
  {
    var ms := InCategory(rows, c);
    InCategoryAppend(rows, row, c);
    if row.category == c { TotalsAppend(ms, row.m); } else { assert ms + [] == ms; }
  }

  lemma TotalsAppend(ms: seq<ItemMetrics>, m: ItemMetrics)
    ensures Totals(ms + [m]) == Add(Totals(ms), One(m))
  {
    assert (ms + [m])[..|ms|] == ms;
  }

  lemma {:induction false} NoRows(rows: seq<Measured>, cats: seq<string>)
    requires rows == []
    ensures RowsOver(rows, cats) == Sums(0, 0, 0, 0.0)
    decreases |cats|
  {
    hide Add, Totals;
    if cats != [] {
      NoRows(rows, cats[1..]);
      assert InCategory(rows, cats[0]) == [];
      NoTotals();
      AddNothing(Sums(0, 0, 0, 0.0));
    }
  }

  lemma AddNothing(a: Sums)
    ensures Add(a, Sums(0, 0, 0, 0.0)) == a
  {
  }

  lemma MetricsSplit(rows: seq<Measured>)
    requires rows != []
    ensures var n := |rows| - 1;
      rows == rows[..n] + [rows[n]] && Totals(Metrics(rows)) == Add(Totals(Metrics(rows[..n])), One(rows[n].m))
  {
    var n := |rows| - 1;
    MetricsAppend(rows[..n], rows[n]);
    assert rows == rows[..n] + [rows[n]];
    assert Metrics(rows)[..n] == Metrics(rows[..n]);
  }

  lemma {:induction false} RowsCovered(rows: seq<Measured>, cats: seq<string>)
    requires Distinct(cats)
    ensures (forall r :: r in rows ==> r.category in cats) ==> RowsOver(rows, cats) == Totals(Metrics(rows))
    ensures (forall r :: r in rows ==> r.category in cats || r.m.tokens == 0) ==>
      RowsOver(rows, cats).tokens == Totals(Metrics(rows)).tokens
    decreases |rows|
  {
    if rows == [] {
      NoRows(rows, cats);
    } else {
      var n := |rows| - 1;
      MetricsSplit(rows);
      RowsCovered(rows[..n], cats);
      OneMoreRow(rows[..n], rows[n], cats);
    }
  }

  /** The category totals of tokens, calls and questions add up to the
      overall ones, in whatever order the categories are listed. */
  lemma CategoriesSumToOverall(report: StrategyReport, rows: seq<Measured>, cats: seq<string>)
    requires Reports(report, rows) && Distinct(cats) && forall c :: c in cats <==> c in report.perCategory
    ensures TotalOver(report, cats) == CountsOf(report.overall)
    ensures RowsOver(rows, cats) == Totals(Metrics(rows))
  {
    ReportedOver(report, rows, cats);
    forall r | r in rows ensures r.category in cats {
      var i :| 0 <= i < |rows| && rows[i] == r;
      assert HasCategory(rows, r.category);
    }
    RowsCovered(rows, cats);
    AggregateCounts(Metrics(rows));
  }

  // ---- Ratios ----

  datatype CategoryRatio = CategoryRatio(category: string, pct: real, akashicRecall: real, baselineRecall: real)

  function Pct(a: nat, b: nat): real
    requires b > 0
  {
    a as real / b as real * 100.0
  }

  function TokenRatioPct(baseline: StrategyReport, akashic: StrategyReport): Option<real> {
    if baseline.overall.totalTokens == 0 then None
    else Some(Pct(akashic.overall.totalTokens, baseline.overall.totalTokens))
  }

  // Categories of both strategies that cost the baseline something.
  predicate Comparable(baseline: StrategyReport, akashic: StrategyReport, c: string) {
    c in baseline.perCategory && c in akashic.perCategory && baseline.perCategory[c].totalTokens > 0
  }

  /** A ratio is in per cent of the baseline. */
  lemma PctExactly(a: nat, b: nat)
    requires b > 0
    ensures Pct(a, b) * b as real == 100.0 * a as real
  {
    Scaled(a as real, b as real);
  }

  predicate RatioOf(baseline: StrategyReport, akashic: StrategyReport, r: CategoryRatio) {
    && Comparable(baseline, akashic, r.category)
    && r == CategoryRatio(r.category,
      Pct(akashic.perCategory[r.category].totalTokens, baseline.perCategory[r.category].totalTokens),
                          akashic.perCategory[r.category].meanRecall, baseline.perCategory[r.category].meanRecall)
  }

  function Names(rs: seq<CategoryRatio>): (cats: seq<string>)
    ensures |cats| == |rs| && forall i :: 0 <= i < |rs| ==> cats[i] == rs[i].category
  {
    Map((r: CategoryRatio) => r.category, rs)
  }

  ghost predicate Ratios(baseline: StrategyReport, akashic: StrategyReport, rs: seq<CategoryRatio>) {
    && (forall c :: c in Names(rs) <==> Comparable(baseline, akashic, c))
    && (forall i :: 0 <= i < |rs| ==> RatioOf(baseline, akashic, rs[i]))
    && Distinct(Names(rs)) && Sorted(StrLeq, Names(rs))
  }

  // The keys of an ordered map, ascending.
  method Ascending(keys: set<string>) returns (cats: seq<string>)
    ensures Distinct(cats) && Sorted(StrLeq, cats) && forall c :: c in cats <==> c in keys
  {
    cats := [];
    var todo := keys;
    while todo != {}
      invariant todo <= keys && Distinct(cats) && forall c :: c in cats <==> c in keys && c !in todo
      decreases todo
    {
      var c :| c in todo;
      todo := todo - {c};
      cats := cats + [c];
    }
    StrOrder();
    SortSorts(StrLeq, cats);
    DistinctPermute(cats, Sort(StrLeq, cats));
    cats := Sort(StrLeq, cats);
  }

  lemma DistinctPermute(a: seq<string>, b: seq<string>)
    requires Distinct(a) && multiset(a) == multiset(b)
    ensures Distinct(b) && forall c :: c in b <==> c in a
  {
    forall i, j | 0 <= i < j < |b| ensures b[i] != b[j] {
      DistinctCount(a, b[i]);
      assert b == b[..j] + [b[j]] + b[j + 1..];
      assert b[i] == b[..j][i] && b[i] in multiset(b[..j]);
    }
    forall c ensures c in b <==> c in a {
      assert c in multiset(a) <==> c in multiset(b);
    }
  }

  // What the loop has pushed after the categories `cats`.
  ghost predicate RatiosUpTo(baseline: StrategyReport, akashic: StrategyReport, cats: seq<string>,
      rs: seq<CategoryRatio>) {
    && (forall c :: c in Names(rs) <==> c in cats && Comparable(baseline, akashic, c))
    && (forall k :: 0 <= k < |rs| ==> RatioOf(baseline, akashic, rs[k]))
    && Distinct(Names(rs)) && Sorted(StrLeq, Names(rs))
  }

  lemma RatiosSkip(baseline: StrategyReport, akashic: StrategyReport, cats: seq<string>, rs: seq<CategoryRatio>,
      c: string)
    requires RatiosUpTo(baseline, akashic, cats, rs) && !Comparable(baseline, akashic, c)
    ensures RatiosUpTo(baseline, akashic, cats + [c], rs)
  {
  }

  lemma RatiosPush(baseline: StrategyReport, akashic: StrategyReport, cats: seq<string>, rs: seq<CategoryRatio>,
      r: CategoryRatio)
    requires RatiosUpTo(baseline, akashic, cats, rs) && RatioOf(baseline, akashic, r)
    requires r.category !in cats && Sorted(StrLeq, cats + [r.category])
    ensures RatiosUpTo(baseline, akashic, cats + [r.category], rs + [r])
  {
    hide StrLeq, Comparable;
    var c := r.category;
    assert Names(rs + [r]) == Names(rs) + [c];
    forall k | 0 <= k < |rs| ensures StrLeq(Names(rs)[k], c) {
      assert Names(rs)[k] in cats;
      var i :| 0 <= i < |cats| && cats[i] == Names(rs)[k];
      assert (cats + [c])[i] == cats[i] && (cats + [c])[|cats|] == c;
    }
  }

  method CategoryRatios(baseline: StrategyReport, akashic: StrategyReport) returns (rs: seq<CategoryRatio>)
    ensures Ratios(baseline, akashic, rs)
    ensures forall i :: 0 <= i < |rs| ==> RatioStates(baseline, akashic, rs[i])
  {
    hide RatioStates, StrLeq, Pct;
    rs := [];
    var cats := Ascending(baseline.perCategory.Keys);
    for i := 0 to |cats|
      invariant RatiosUpTo(baseline, akashic, cats[..i], rs)
    {
      var c := cats[i];
      assert cats[..i + 1] == cats[..i] + [c];
      if c !in akashic.perCategory || baseline.perCategory[c].totalTokens == 0 {
        RatiosSkip(baseline, akashic, cats[..i], rs, c);
        continue;
      }
      var b, a := baseline.perCategory[c], akashic.perCategory[c];
      var r := CategoryRatio(c, Pct(a.totalTokens, b.totalTokens), a.meanRecall, b.meanRecall);
      RatiosPush(baseline, akashic, cats[..i], rs, r);
      rs := rs + [r];
    }
    assert cats[..|cats|] == cats;
    RatiosState(baseline, akashic, rs);
  }

  lemma RatiosState(baseline: StrategyReport, akashic: StrategyReport, rs: seq<CategoryRatio>)
    requires Ratios(baseline, akashic, rs)
    ensures forall i :: 0 <= i < |rs| ==> RatioStates(baseline, akashic, rs[i])
  {
    hide Pct, Names, StrLeq;
    forall i | 0 <= i < |rs| ensures RatioStates(baseline, akashic, rs[i]) {
      assert RatioOf(baseline, akashic, rs[i]);
      PctExactly(akashic.perCategory[rs[i].category].totalTokens, baseline.perCategory[rs[i].category].totalTokens);
    }
  }

  // The row of a category both reports have: the second's tokens in per cent of the
  // first's, beside the two recalls.
  predicate RatioStates(baseline: StrategyReport, akashic: StrategyReport, r: CategoryRatio) {
    r.category in baseline.perCategory && r.category in akashic.perCategory &&
    var b, a := baseline.perCategory[r.category], akashic.perCategory[r.category];
    && b.totalTokens > 0 && r.pct * b.totalTokens as real == 100.0 * a.totalTokens as real
    && r.akashicRecall == a.meanRecall && r.baselineRecall == b.meanRecall
  }

  function SumPct(rs: seq<CategoryRatio>): real {
    if rs == [] then 0.0 else rs[0].pct + SumPct(rs[1..])
  }

  function MacroAverage(rs: seq<CategoryRatio>): Option<real> {
    if rs == [] then None else Some(SumPct(rs) / |rs| as real)
  }

  /** The macro-average counts every category once, the overall ratio every token. */
  lemma HeadlinesExactly(baseline: StrategyReport, akashic: StrategyReport, rs: seq<CategoryRatio>, r: CategoryRatio)
    ensures SumPct([]) == 0.0 && SumPct([r] + rs) == r.pct + SumPct(rs)
    ensures MacroAverage(rs).Some? <==> rs != []
    ensures rs != [] ==> MacroAverage(rs).value * |rs| as real == SumPct(rs)
    ensures TokenRatioPct(baseline, akashic).Some? <==> baseline.overall.totalTokens > 0
    ensures TokenRatioPct(baseline, akashic).Some? ==>
      TokenRatioPct(baseline, akashic).value * baseline.overall.totalTokens as real ==
        100.0 * akashic.overall.totalTokens as real
  {
    SumPctCons(r, rs);
    hide SumPct;
    if rs != [] { MeanTimesCount(SumPct(rs), |rs|); }
    if baseline.overall.totalTokens > 0 {
      hide Pct;
      PctExactly(akashic.overall.totalTokens, baseline.overall.totalTokens);
    }
  }

  lemma SumPctCons(r: CategoryRatio, rs: seq<CategoryRatio>)
    ensures SumPct([]) == 0.0 && SumPct([r] + rs) == r.pct + SumPct(rs)
  {
    assert ([r] + rs)[1..] == rs;
  }

  /** The ratios are determined by the two reports. */
  lemma RatiosUnique(baseline: StrategyReport, akashic: StrategyReport, rs: seq<CategoryRatio>, rs': seq<CategoryRatio>)
    requires Ratios(baseline, akashic, rs) && Ratios(baseline, akashic, rs')
    ensures rs == rs'
  {
    StrOrder();
    DistinctMultiset(Names(rs), Names(rs'));
    SortedUnique(StrLeq, Names(rs), Names(rs'));
    assert |rs| == |rs'|;
    forall i | 0 <= i < |rs| ensures rs[i] == rs'[i] {
      assert Names(rs)[i] == Names(rs')[i];
      assert RatioOf(baseline, akashic, rs[i]) && RatioOf(baseline, akashic, rs'[i]);
    }
  }

  method MacroAvgRatioPct(baseline: StrategyReport, akashic: StrategyReport) returns (pct: Option<real>)
    ensures pct.None? <==> forall c :: !Comparable(baseline, akashic, c)
    ensures forall rs :: Ratios(baseline, akashic, rs) ==> pct == MacroAverage(rs)
  {
    var ratios := CategoryRatios(baseline, akashic);
    if ratios == [] { return None; }
    assert Comparable(baseline, akashic, Names(ratios)[0]);
    pct := MacroAverage(ratios);
    forall rs | Ratios(baseline, akashic, rs) ensures rs == ratios { RatiosUnique(baseline, akashic, rs, ratios); }
  }

  // ---- The headline numbers lie among the category ratios ----

  ghost predicate Within(lo: real, hi: real, rs: seq<CategoryRatio>) {
    forall i :: 0 <= i < |rs| ==> lo <= rs[i].pct <= hi
  }

  // x * n as a repeated sum.
  ghost function Times(x: real, n: nat): real {
    if n == 0 then 0.0 else Times(x, n - 1) + x
  }

  lemma {:induction false} TimesAdd(x: real, m: nat, n: nat)
    ensures Times(x, m + n) == Times(x, m) + Times(x, n)
  {
    if n > 0 { TimesAdd(x, m, n - 1); }
  }

  lemma {:induction false} TimesIsProduct(x: real, n: nat)
    ensures Times(x, n) == x * n as real
  {
    if n > 0 { TimesIsProduct(x, n - 1); }
  }

  lemma {:induction false} SumPctBetween(rs: seq<CategoryRatio>, lo: real, hi: real)
    requires Within(lo, hi, rs)
    ensures Times(lo, |rs|) <= SumPct(rs) <= Times(hi, |rs|)
  {
    if rs != [] {
      assert rs == [rs[0]] + rs[1..];
      SumPctBetween(rs[1..], lo, hi);
    }
  }

  lemma {:induction false} TimesMonotone(x: real, y: real, n: nat)
    requires x <= y
    ensures Times(x, n) <= Times(y, n)
    ensures x < y && n > 0 ==> Times(x, n) < Times(y, n)
  {
    if n > 0 { TimesMonotone(x, y, n - 1); }
  }

  lemma MultipliedOut(q: real, n: nat, x: real, lo: real, hi: real)
    requires n > 0 && q * n as real == x
    ensures lo <= q <= hi <==> Times(lo, n) <= x <= Times(hi, n)
  {
    TimesIsProduct(q, n);
    if lo <= q { TimesMonotone(lo, q, n); } else { TimesMonotone(q, lo, n); }
    if q <= hi { TimesMonotone(q, hi, n); } else { TimesMonotone(hi, q, n); }
  }

  lemma Quotient(x: real, n: nat, lo: real, hi: real)
    requires n > 0
    ensures Times(lo, n) <= x <= Times(hi, n) <==> lo <= x / n as real <= hi
  {
    Undo(x, n as real);
    MultipliedOut(x / n as real, n, x, lo, hi);
  }

  lemma Scaled(x: real, n: real)
    requires n > 0.0
    ensures (x / n * 100.0) * n == 100.0 * x
  {
    var q := x / n;
    assert q * n == x;
    assert (q * 100.0) * n == 100.0 * (q * n);
  }

  lemma PctBetween(a: nat, b: nat, lo: real, hi: real)
    requires b > 0
    ensures lo <= Pct(a, b) <= hi <==> Times(lo, b) <= 100.0 * a as real <= Times(hi, b)
  {
    Scaled(a as real, b as real);
    MultipliedOut(Pct(a, b), b, 100.0 * a as real, lo, hi);
  }

  lemma {:induction false} TokensBetween(baseline: StrategyReport, akashic: StrategyReport, rs: seq<CategoryRatio>,
      lo: real, hi: real)
    requires Within(lo, hi, rs) && forall i :: 0 <= i < |rs| ==> RatioOf(baseline, akashic, rs[i])
    ensures forall c :: c in Names(rs) ==> c in baseline.perCategory && c in akashic.perCategory
    ensures var b, a := TotalOver(baseline, Names(rs)).tokens, TotalOver(akashic, Names(rs)).tokens;
      (rs != [] ==> b > 0) && Times(lo, b) <= 100.0 * a as real <= Times(hi, b)
  {
    if rs != [] {
      var c := rs[0].category;
      assert RatioOf(baseline, akashic, rs[0]);
      TokensBetween(baseline, akashic, rs[1..], lo, hi);
      assert Names(rs)[1..] == Names(rs[1..]);
      var b, rest := baseline.perCategory[c].totalTokens, TotalOver(baseline, Names(rs[1..])).tokens;
      PctBetween(akashic.perCategory[c].totalTokens, b, lo, hi);
      TimesAdd(lo, rest, b);
      TimesAdd(hi, rest, b);
    }
  }

  // A category without tokens has no row with tokens.
  lemma {:induction false} NoTokens(rows: seq<Measured>, r: Measured)
    requires r in rows && Totals(InCategory(rows, r.category)).tokens == 0
    ensures r.m.tokens == 0
  {
    var n := |rows| - 1;
    assert rows == rows[..n] + [rows[n]];
    CategoryGrows(rows[..n], rows[n], r.category);
    if rows[n] != r {
      assert r in rows[..n];
      NoTokens(rows[..n], r);
    }
  }

  lemma TokensInside(report: StrategyReport, rows: seq<Measured>, cats: seq<string>)
    requires Reports(report, rows) && Distinct(cats) && forall c :: c in cats ==> c in report.perCategory
    requires forall c :: c in report.perCategory && c !in cats ==> report.perCategory[c].totalTokens == 0
    ensures TotalOver(report, cats).tokens == report.overall.totalTokens
  {
    ReportedOver(report, rows, cats);
    forall r | r in rows ensures r.category in cats || r.m.tokens == 0 {
      var i :| 0 <= i < |rows| && rows[i] == r;
      assert HasCategory(rows, r.category);
      if r.category !in cats { NoTokens(rows, r); }
    }
    RowsCovered(rows, cats);
    AggregateCounts(Metrics(rows));
  }

  // No tokens outside the comparable categories, on either side.
  ghost predicate Balanced(baseline: StrategyReport, akashic: StrategyReport) {
    && (forall c :: c in baseline.perCategory && baseline.perCategory[c].totalTokens > 0 ==> c in akashic.perCategory)
    && (forall c :: c in akashic.perCategory && akashic.perCategory[c].totalTokens > 0 ==>
      Comparable(baseline, akashic, c))
  }

  /** When no tokens lie outside the comparable categories (in particular when both
      strategies share their categories and each costs the baseline something), both
      the token-weighted ratio and the macro-average lie between the smallest and the
      largest category ratio, and either one is missing only if there is no ratio. */
  lemma HeadlinesLieAmongRatios(baseline: StrategyReport, akashic: StrategyReport, brows: seq<Measured>,
      arows: seq<Measured>, rs: seq<CategoryRatio>, lo: real, hi: real)
    requires Reports(baseline, brows) && Reports(akashic, arows) && Ratios(baseline, akashic, rs)
    requires Balanced(baseline, akashic) && Within(lo, hi, rs)
    ensures TokenRatioPct(baseline, akashic).None? <==> rs == []
    ensures MacroAverage(rs).None? <==> rs == []
    ensures rs != [] ==> lo <= TokenRatioPct(baseline, akashic).value <= hi && lo <= MacroAverage(rs).value <= hi
  {
    hide Aggregate, Totals, Times, Pct, StrLeq, InCategory, RatioOf, CountsOf, AddCounts;
    var cats := Names(rs);
    TokensBetween(baseline, akashic, rs, lo, hi);
    TokensInside(baseline, brows, cats);
    TokensInside(akashic, arows, cats);
    if rs != [] {
      PctBetween(akashic.overall.totalTokens, baseline.overall.totalTokens, lo, hi);
      SumPctBetween(rs, lo, hi);
      Quotient(SumPct(rs), |rs|, lo, hi);
    } else {
      assert TotalOver(baseline, cats) == Counts(0, 0, 0);
    }
  }

  /** A category the baseline lacks takes the token-weighted ratio outside: with one
      shared category and any tokens beside it, the overall exceeds the only ratio. */
  lemma UnsharedCategoryEscapes(baseline: StrategyReport, akashic: StrategyReport, brows: seq<Measured>,
      arows: seq<Measured>, rs: seq<CategoryRatio>, c: string, d: string)
    requires Reports(baseline, brows) && Reports(akashic, arows) && Ratios(baseline, akashic, rs)
    requires baseline.perCategory.Keys == {c} && akashic.perCategory.Keys == {c, d} && c != d
    requires baseline.perCategory[c].totalTokens > 0 && akashic.perCategory[d].totalTokens > 0
    ensures |rs| == 1 && MacroAverage(rs) == Some(rs[0].pct)
    ensures TokenRatioPct(baseline, akashic).Some? && TokenRatioPct(baseline, akashic).value > rs[0].pct
  {
    OneCategory(baseline, brows, c);
    TwoTotals(akashic, arows, c, d);
    OneRatioEscapes(baseline, akashic, rs, c);
  }

  lemma OneRatioEscapes(baseline: StrategyReport, akashic: StrategyReport, rs: seq<CategoryRatio>, c: string)
    requires Ratios(baseline, akashic, rs) && baseline.perCategory.Keys == {c} && Comparable(baseline, akashic, c)
    requires baseline.overall.totalTokens == baseline.perCategory[c].totalTokens
    requires akashic.overall.totalTokens > akashic.perCategory[c].totalTokens
    ensures |rs| == 1 && MacroAverage(rs) == Some(rs[0].pct)
    ensures TokenRatioPct(baseline, akashic).Some? && TokenRatioPct(baseline, akashic).value > rs[0].pct
  {
    OnlyRatio(baseline, akashic, rs, c);
    PctGrows(akashic.perCategory[c].totalTokens, akashic.overall.totalTokens, baseline.overall.totalTokens);
  }

  lemma OneCategory(report: StrategyReport, rows: seq<Measured>, c: string)
    requires Reports(report, rows) && report.perCategory.Keys == {c}
    ensures report.overall.totalTokens == report.perCategory[c].totalTokens
  {
    TokensInside(report, rows, [c]);
    OneTotal(report, c);
  }

  lemma TwoTotals(report: StrategyReport, rows: seq<Measured>, c: string, d: string)
    requires Reports(report, rows) && report.perCategory.Keys == {c, d} && c != d
    ensures report.overall.totalTokens == report.perCategory[c].totalTokens + report.perCategory[d].totalTokens
  {
    TokensInside(report, rows, [c, d]);
    OneTotal(report, d);
    assert [c, d][1..] == [d];
  }

  lemma OneTotal(report: StrategyReport, c: string)
    requires c in report.perCategory
    ensures TotalOver(report, [c]) == CountsOf(report.perCategory[c])
  {
    assert [c][1..] == [];
  }

  lemma OnlyRatio(baseline: StrategyReport, akashic: StrategyReport, rs: seq<CategoryRatio>, c: string)
    requires Ratios(baseline, akashic, rs) && baseline.perCategory.Keys == {c} && Comparable(baseline, akashic, c)
    ensures |rs| == 1 && RatioOf(baseline, akashic, rs[0]) && rs[0].category == c
    ensures MacroAverage(rs) == Some(rs[0].pct)
  {
    assert c in Names(rs);
    forall i | 0 <= i < |rs| ensures Names(rs)[i] == c { assert Comparable(baseline, akashic, Names(rs)[i]); }
    assert RatioOf(baseline, akashic, rs[0]);
    assert SumPct(rs) == rs[0].pct + SumPct(rs[1..]) == rs[0].pct;
  }

  lemma PctGrows(a: nat, more: nat, b: nat)
    requires b > 0 && a < more
    ensures Pct(more, b) > Pct(a, b)
  {
    PctBetween(more, b, 0.0, Pct(a, b));
    PctBetween(a, b, Pct(a, b), Pct(a, b));
    PctBetween(a, b, 0.0, Pct(a, b));
    PctBetween(more, b, 0.0, Pct(more, b));
    TimesIsProduct(0.0, b);
  }

  // ---- Recall ----

  // The recall sum lies between lo and hi per item.
  ghost predicate Bracketed(t: Sums, lo: real, hi: real) { Times(lo, t.n) <= t.recall <= Times(hi, t.n) }

  lemma BracketedAdd(a: Sums, b: Sums, lo: real, hi: real)
    requires Bracketed(a, lo, hi) && Bracketed(b, lo, hi)
    ensures Bracketed(Add(a, b), lo, hi)
  {
    hide Times;
    TimesAdd(lo, a.n, b.n);
    TimesAdd(hi, a.n, b.n);
  }

  lemma CategoryRecall(ms: seq<ItemMetrics>, lo: real, hi: real)
    requires lo <= Aggregate(ms).meanRecall <= hi
    ensures Bracketed(Totals(ms), lo, hi)
  {
    TotalsCount(ms);
    if ms != [] { Quotient(Totals(ms).recall, |ms|, lo, hi); }
  }

  lemma {:induction false} RecallBetween(rows: seq<Measured>, cats: seq<string>, lo: real, hi: real)
    requires forall c :: c in cats ==> Bracketed(Totals(InCategory(rows, c)), lo, hi)
    ensures Bracketed(RowsOver(rows, cats), lo, hi)
    decreases |cats|
  {
    if cats != [] {
      hide Bracketed, Totals, InCategory, Add;
      RecallBetween(rows, cats[1..], lo, hi);
      BracketedAdd(RowsOver(rows, cats[1..]), Totals(InCategory(rows, cats[0])), lo, hi);
    }
  }

  /** The overall mean recall lies between the smallest and largest category recall. */
  lemma OverallRecallAmongCategories(report: StrategyReport, rows: seq<Measured>, cats: seq<string>, lo: real, hi: real)
    requires Reports(report, rows) && rows != [] && Distinct(cats) && forall c :: c in cats <==> c in report.perCategory
    requires forall c :: c in report.perCategory ==> lo <= report.perCategory[c].meanRecall <= hi
    ensures lo <= report.overall.meanRecall <= hi
  {
    CategoriesSumToOverall(report, rows, cats);
    forall c | c in cats ensures Bracketed(Totals(InCategory(rows, c)), lo, hi) {
      CategoryRecall(InCategory(rows, c), lo, hi);
    }
    RecallBetween(rows, cats, lo, hi);
    TotalsCount(Metrics(rows));
    Quotient(Totals(Metrics(rows)).recall, |rows|, lo, hi);
  }
}
