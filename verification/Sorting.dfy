/** Orders, stable sorting and lexicographic comparison. */
module Sorting {

  ghost predicate TotalOrder<T(!new)>(leq: (T, T) -> bool) {
    && (forall a, b :: leq(a, b) || leq(b, a))
    && (forall a, b :: leq(a, b) && leq(b, a) ==> a == b)
    && (forall a, b, c :: leq(a, b) && leq(b, c) ==> leq(a, c))
  }

  ghost predicate Preorder<T(!new)>(leq: (T, T) -> bool) {
    && (forall a, b :: leq(a, b) || leq(b, a))
    && (forall a, b, c :: leq(a, b) && leq(b, c) ==> leq(a, c))
  }

  predicate Sorted<T>(leq: (T, T) -> bool, s: seq<T>) {
    forall i, j :: 0 <= i < j < |s| ==> leq(s[i], s[j])
  }

  ghost predicate Distinct<T>(s: seq<T>) {
    forall i, j :: 0 <= i < j < |s| ==> s[i] != s[j]
  }

  lemma {:induction false} DistinctCount<T>(a: seq<T>, x: T)
    requires Distinct(a)
    ensures multiset(a)[x] == if x in a then 1 else 0
  {
    if a != [] {
      var n := |a| - 1;
      DistinctCount(a[..n], x);
      assert a == a[..n] + [a[n]];
    }
  }

  // Two listings of the same elements without repetition are rearrangements.
  lemma {:induction false} DistinctMultiset<T>(a: seq<T>, b: seq<T>)
    requires Distinct(a) && Distinct(b) && (forall x :: x in a <==> x in b)
    ensures multiset(a) == multiset(b)
  {
    forall x ensures multiset(a)[x] == multiset(b)[x] {
      DistinctCount(a, x);
      DistinctCount(b, x);
    }
  }

  // x goes before the first element it does not exceed, so equals keep their order.
  function Insert<T>(leq: (T, T) -> bool, x: T, s: seq<T>): seq<T> {
    if s == [] || leq(x, s[0]) then [x] + s else [s[0]] + Insert(leq, x, s[1..])
  }

  function Sort<T>(leq: (T, T) -> bool, s: seq<T>): seq<T> {
    if s == [] then [] else Insert(leq, s[0], Sort(leq, s[1..]))
  }

  lemma ConsMultiset<T>(x: T, s: seq<T>)
    ensures multiset([x] + s) == multiset(s) + multiset{x}
  {
  }

  lemma {:induction false} InsertMultiset<T>(leq: (T, T) -> bool, x: T, s: seq<T>)
    ensures multiset(Insert(leq, x, s)) == multiset(s) + multiset{x}
  {
    if s == [] || leq(x, s[0]) {
      ConsMultiset(x, s);
    } else {
      InsertMultiset(leq, x, s[1..]);
      ConsMultiset(s[0], Insert(leq, x, s[1..]));
      ConsMultiset(s[0], s[1..]);
      assert [s[0]] + s[1..] == s;
      SwapAdded(multiset(s[1..]), x, s[0]);
    }
  }

  lemma SwapAdded<T>(m: multiset<T>, x: T, y: T)
    ensures m + multiset{x} + multiset{y} == m + multiset{y} + multiset{x}
  {
  }

  lemma ConsSorted<T>(leq: (T, T) -> bool, x: T, s: seq<T>)
    requires Sorted(leq, s) && forall y :: y in multiset(s) ==> leq(x, y)
    ensures Sorted(leq, [x] + s)
  {
    assert forall j :: 0 <= j < |s| ==> s[j] in multiset(s);
  }

  lemma {:induction false} InsertSorts<T(!new)>(leq: (T, T) -> bool, x: T, s: seq<T>)
    requires Preorder(leq) && Sorted(leq, s)
    ensures Sorted(leq, Insert(leq, x, s)) && multiset(Insert(leq, x, s)) == multiset(s) + multiset{x}
  {
    InsertMultiset(leq, x, s);
    if s == [] || leq(x, s[0]) {
      forall y | y in multiset(s) ensures leq(x, y) { HeadIsLeast(leq, s, y); }
      ConsSorted(leq, x, s);
    } else {
      var t := Insert(leq, x, s[1..]);
      InsertSorts(leq, x, s[1..]);
      TailMultiset(s);
      forall y | y in multiset(t) ensures leq(s[0], y) {
        if y != x { HeadIsLeast(leq, s, y); }
      }
      ConsSorted(leq, s[0], t);
    }
  }

  lemma {:induction false} SortSorts<T(!new)>(leq: (T, T) -> bool, s: seq<T>)
    requires Preorder(leq)
    ensures Sorted(leq, Sort(leq, s)) && multiset(Sort(leq, s)) == multiset(s)
  {
    if s != [] {
      hide Insert, Preorder, Sorted;
      SortSorts(leq, s[1..]);
      InsertSorts(leq, s[0], Sort(leq, s[1..]));
      ConsMultiset(s[0], s[1..]);
      assert s == [s[0]] + s[1..];
    }
  }

  lemma HeadIsLeast<T(!new)>(leq: (T, T) -> bool, s: seq<T>, x: T)
    requires Preorder(leq) && Sorted(leq, s) && x in multiset(s)
    ensures leq(s[0], x)
  {
    var i :| 0 <= i < |s| && s[i] == x;
  }

  lemma TailMultiset<T>(s: seq<T>)
    requires s != []
    ensures multiset(s[1..]) == multiset(s) - multiset{s[0]}
  {
    assert s == [s[0]] + s[1..];
  }

  lemma RemoveAt<T>(s: seq<T>, i: nat)
    requires i < |s|
    ensures multiset(s[..i] + s[i + 1..]) == multiset(s) - multiset{s[i]}
  {
    assert s == s[..i] + [s[i]] + s[i + 1..];
  }

  // The head of one arrangement, found and taken out of another.
  lemma TakeOut<T>(a: seq<T>, b: seq<T>) returns (i: nat)
    requires a != [] && multiset(a) == multiset(b)
    ensures i < |b| && b[i] == a[0] && multiset(a[1..]) == multiset(b[..i] + b[i + 1..])
  {
    assert a[0] in multiset(b);
    i :| 0 <= i < |b| && b[i] == a[0];
    RemoveAt(b, i);
    TailMultiset(a);
  }

  // Elements of a that the order cannot tell apart are equal.
  ghost predicate TiesAreEqual<T(!new)>(leq: (T, T) -> bool, a: seq<T>) {
    forall x, y :: x in a && y in a && leq(x, y) && leq(y, x) ==> x == y
  }

  // A multiset without unequal ties has one sorted arrangement.
  lemma {:induction false} SortedUnique<T(!new)>(leq: (T, T) -> bool, a: seq<T>, b: seq<T>)
    requires Preorder(leq) && TiesAreEqual(leq, a) && Sorted(leq, a) && Sorted(leq, b) && multiset(a) == multiset(b)
    ensures a == b
  {
    assert |a| == |multiset(a)| && |b| == |multiset(b)|;
    if a != [] {
      assert a[0] in multiset(a) && b[0] in multiset(b);
      assert b[0] in multiset(a);
      HeadIsLeast(leq, a, b[0]);
      HeadIsLeast(leq, b, a[0]);
      assert a[0] == b[0];
      TailMultiset(a);
      TailMultiset(b);
      SortedUnique(leq, a[1..], b[1..]);
      assert a == [a[0]] + a[1..] && b == [b[0]] + b[1..];
    }
  }

  // Sorting what is sorted changes nothing: the sort is stable.
  lemma {:induction false} SortedIsFixed<T(!new)>(leq: (T, T) -> bool, s: seq<T>)
    requires Preorder(leq) && Sorted(leq, s)
    ensures Sort(leq, s) == s
  {
    if s != [] { SortedIsFixed(leq, s[1..]); }
  }

  lemma SortCanonical<T(!new)>(leq: (T, T) -> bool, a: seq<T>, b: seq<T>)
    requires TotalOrder(leq) && multiset(a) == multiset(b)
    ensures Sort(leq, a) == Sort(leq, b)
  {
    SortSorts(leq, a);
    SortSorts(leq, b);
    SortedUnique(leq, Sort(leq, a), Sort(leq, b));
  }

  // ---- Lexicographic order ----

  predicate LexLeq<T(==)>(leq: (T, T) -> bool, a: seq<T>, b: seq<T>) {
    a == [] || (b != [] && if a[0] == b[0] then LexLeq(leq, a[1..], b[1..]) else leq(a[0], b[0]))
  }

  lemma {:induction false} LexConnected<T(!new)>(leq: (T, T) -> bool, a: seq<T>, b: seq<T>)
    requires TotalOrder(leq)
    ensures LexLeq(leq, a, b) || LexLeq(leq, b, a)
    ensures LexLeq(leq, a, b) && LexLeq(leq, b, a) ==> a == b
  {
    if a != [] && b != [] && a[0] == b[0] {
      LexConnected(leq, a[1..], b[1..]);
      assert a == [a[0]] + a[1..] && b == [b[0]] + b[1..];
    }
  }

  lemma {:induction false} LexTransitive<T(!new)>(leq: (T, T) -> bool, a: seq<T>, b: seq<T>, c: seq<T>)
    requires TotalOrder(leq) && LexLeq(leq, a, b) && LexLeq(leq, b, c)
    ensures LexLeq(leq, a, c)
  {
    if a != [] && b != [] && c != [] && a[0] == b[0] == c[0] {
      LexTransitive(leq, a[1..], b[1..], c[1..]);
    }
  }

  predicate CharLeq(a: char, b: char) { a <= b }

  predicate StrLeq(a: string, b: string) { LexLeq(CharLeq, a, b) }

  lemma StrOrder()
    ensures TotalOrder(StrLeq)
  {
    assert TotalOrder(CharLeq);
    forall a, b ensures (StrLeq(a, b) || StrLeq(b, a)) && (StrLeq(a, b) && StrLeq(b, a) ==> a == b) {
      LexConnected(CharLeq, a, b);
    }
    forall a, b, c | StrLeq(a, b) && StrLeq(b, c) ensures StrLeq(a, c) {
      LexTransitive(CharLeq, a, b, c);
    }
  }

  // The lists agree up to k and differ there.
  predicate DiffersAt<T(==)>(a: seq<T>, b: seq<T>, k: nat) {
    k < |a| && k < |b| && a[..k] == b[..k] && a[k] != b[k]
  }

  /** The lexicographic order: the first list is a beginning of the second, or smaller
      where they first differ. */
  lemma {:induction false} LexLeqExactly<T(!new)>(leq: (T, T) -> bool, a: seq<T>, b: seq<T>)
    ensures LexLeq(leq, a, b) <==> a <= b || exists k: nat :: DiffersAt(a, b, k) && leq(a[k], b[k])
  {
    if a != [] && b != [] {
      if a[0] != b[0] {
        assert LexLeq(leq, a, b) ==> DiffersAt(a, b, 0);
        assert forall k: nat :: DiffersAt(a, b, k) ==> k == 0 || a[..k][0] == b[..k][0];
      } else {
        LexLeqExactly(leq, a[1..], b[1..]);
        assert a == [a[0]] + a[1..] && b == [b[0]] + b[1..];
        forall k: nat ensures DiffersAt(a[1..], b[1..], k) <==> DiffersAt(a, b, k + 1) { DiffersLater(a, b, k); }
        if k: nat :| DiffersAt(a, b, k) && leq(a[k], b[k]) { assert DiffersAt(a[1..], b[1..], k - 1); }
        if k: nat :| DiffersAt(a[1..], b[1..], k) && leq(a[1..][k], b[1..][k]) { assert DiffersAt(a, b, k + 1); }
      }
    }
  }

  lemma DiffersLater<T>(a: seq<T>, b: seq<T>, k: nat)
    requires a != [] && b != [] && a[0] == b[0]
    ensures DiffersAt(a[1..], b[1..], k) <==> DiffersAt(a, b, k + 1)
  {
    if k + 1 <= |a| && k + 1 <= |b| {
      assert a[..k + 1] == [a[0]] + a[1..][..k] && b[..k + 1] == [b[0]] + b[1..][..k];
    }
  }

  // The first string stands before the second in a dictionary, or is it.
  ghost predicate Before(a: string, b: string) {
    a <= b || exists k: nat :: DiffersAt(a, b, k) && a[k] < b[k]
  }

  lemma StrLeqIsBefore(a: string, b: string)
    ensures StrLeq(a, b) <==> Before(a, b)
  {
    LexLeqExactly(CharLeq, a, b);
    if k: nat :| DiffersAt(a, b, k) && CharLeq(a[k], b[k]) { assert a[k] < b[k]; }
    if k: nat :| DiffersAt(a, b, k) && a[k] < b[k] { assert CharLeq(a[k], b[k]); }
  }

  // ---- Mapping ----

  function Map<A, B>(f: A -> B, s: seq<A>): (t: seq<B>)
    ensures |t| == |s| && forall i :: 0 <= i < |s| ==> t[i] == f(s[i])
  {
    if s == [] then [] else [f(s[0])] + Map(f, s[1..])
  }

  lemma MapConcat<A, B>(f: A -> B, a: seq<A>, b: seq<A>)
    ensures Map(f, a + b) == Map(f, a) + Map(f, b)
  {
  }

  lemma {:induction false} MapSplit<A, B>(f: A -> B, s: seq<A>, i: nat)
    requires i < |s|
    ensures multiset(Map(f, s)) == multiset(Map(f, s[..i] + s[i + 1..])) + multiset{f(s[i])}
  {
    var t := Map(f, s);
    hide Map;
    assert Map(f, s[..i] + s[i + 1..]) == t[..i] + t[i + 1..];
    RemoveAt(t, i);
  }

  // Rearranging the inputs rearranges the outputs.
  lemma {:induction false} MapMultiset<A, B>(f: A -> B, s: seq<A>, t: seq<A>)
    requires multiset(s) == multiset(t)
    ensures multiset(Map(f, s)) == multiset(Map(f, t))
  {
    assert |s| == |multiset(s)| == |multiset(t)| == |t|;
    if s != [] {
      var i := TakeOut(s, t);
      MapMultiset(f, s[1..], t[..i] + t[i + 1..]);
      MapSplit(f, t, i);
      MapSplit(f, s, 0);
      assert s[..0] + s[1..] == s[1..];
    }
  }

  // A rearrangement of the outputs comes from a rearrangement of the inputs.
  lemma {:induction false} RearrangedInputs<A, B>(f: A -> B, s: seq<A>, t: seq<B>) returns (s': seq<A>)
    requires multiset(t) == multiset(Map(f, s))
    ensures multiset(s') == multiset(s) && Map(f, s') == t
    decreases |t|
  {
    assert |t| == |multiset(t)| == |multiset(Map(f, s))| == |s|;
    if t == [] { return s; }
    hide Map;
    var i := TakeOut(t, Map(f, s));
    var rest := s[..i] + s[i + 1..];
    assert Map(f, rest) == Map(f, s)[..i] + Map(f, s)[i + 1..];
    var front := RearrangedInputs(f, rest, t[1..]);
    s' := [s[i]] + front;
    PutFirst(s, i, front);
    assert Map(f, s') == [t[0]] + t[1..];
  }

  lemma PutFirst<T>(s: seq<T>, i: nat, front: seq<T>)
    requires i < |s| && multiset(front) == multiset(s[..i] + s[i + 1..])
    ensures multiset([s[i]] + front) == multiset(s)
  {
    RemoveAt(s, i);
    ConsMultiset(s[i], front);
    assert s[i] in multiset(s);
  }
}
