/**
 Batch embedding through a remote service: the texts go out in chunks, each reply
 carries one vector per text with the position it belongs to, and sorting by that
 position restores the order.
 */
module EmbedBatch {
  import opened Basics
  import opened Sorting

  type Vector = seq<real>

  const MAX_BATCH: nat := 128

  datatype Item = Item(index: nat, embedding: Vector)
  // Data is a parsed reply; Failure any transport, status, parse or shutdown error.
  datatype Reply = Data(items: seq<Item>) | Failure

  predicate IndexLeq(a: Item, b: Item) { a.index <= b.index }

  function Embedding(i: Item): Vector { i.embedding }

  // The next chunk and what remains.
  function Head(texts: seq<string>): seq<string> { if |texts| <= MAX_BATCH then texts else texts[..MAX_BATCH] }

  function Tail(texts: seq<string>): seq<string> { if |texts| <= MAX_BATCH then [] else texts[MAX_BATCH..] }

  lemma HeadTail(texts: seq<string>)
    ensures Head(texts) + Tail(texts) == texts
  {
  }

  // A usable reply has one item per text.
  predicate Usable(reply: Reply, chunk: seq<string>) { reply.Data? && |reply.items| == |chunk| }

  // One reply per chunk, in order; None as soon as one is missing or unusable.
  function Batch(texts: seq<string>, replies: seq<Reply>): Option<seq<Vector>>
    decreases |texts|
  {
    if texts == [] then Some([])
    else if replies == [] || !Usable(replies[0], Head(texts)) then None
    else Prepend(Map(Embedding, Sort(IndexLeq, replies[0].items)), Batch(Tail(texts), replies[1..]))
  }

  // How many texts the request with this number carries.
  function ChunkSize(n: nat, k: nat): nat { if 128 * k >= n then 0 else Min(128, n - 128 * k) }

  // The request was answered, with one item per text it carried.
  predicate Answered(n: nat, k: nat, replies: seq<Reply>) {
    k < |replies| && replies[k].Data? && |replies[k].items| == ChunkSize(n, k)
  }

  // What it brought: the vectors of its items by their positions.
  function Vectors(replies: seq<Reply>, k: nat): seq<Vector> {
    if k < |replies| && replies[k].Data? then Map(Embedding, Sort(IndexLeq, replies[k].items)) else []
  }

  lemma AnsweredLater(n: nat, k: nat, replies: seq<Reply>)
    requires n >= 128 && replies != []
    ensures Answered(n, k + 1, replies) <==> Answered(n - 128, k, replies[1..])
  {
  }

  /** The batch succeeds exactly when every request of 128 texts, and the last of what is
      left, is answered with one item per text.  The vectors of a request are then its
      items', by their positions, in the places of its texts. */
  lemma {:induction false} BatchExactly(texts: seq<string>, replies: seq<Reply>)
    ensures Batch(texts, replies).Some? <==>
      forall k: nat :: 128 * k < |texts| ==> Answered(|texts|, k, replies)
    ensures Batch(texts, replies).Some? ==>
      && |Batch(texts, replies).value| == |texts|
      && forall k: nat :: 128 * k < |texts| ==>
           Batch(texts, replies).value[128 * k..128 * k + ChunkSize(|texts|, k)] == Vectors(replies, k)
    decreases |texts|
  {
    var n := |texts|;
    if n != 0 {
      if Answered(n, 0, replies) {
        var first := Map(Embedding, Sort(IndexLeq, replies[0].items));
        SortKeepsCount(replies[0].items);
        BatchExactly(Tail(texts), replies[1..]);
        assert first == Vectors(replies, 0);
        hide Vectors, Map, Sort;
        if n > 128 {
          RestAnswered(n, replies);
          if Batch(texts, replies).Some? {
            RestInPlace(n, first, Batch(Tail(texts), replies[1..]).value, replies);
          }
        } else {
          assert forall k: nat :: 128 * k < n ==> k == 0;
          if Batch(texts, replies).Some? { assert Batch(texts, replies).value == first; }
        }
      } else {
        assert Batch(texts, replies).None?;
        assert 128 * 0 < n && !Answered(n, 0, replies);
      }
    }
  }

  lemma SortKeepsCount(items: seq<Item>)
    ensures |Sort(IndexLeq, items)| == |items|
  {
    SortSorts(IndexLeq, items);
    assert |Sort(IndexLeq, items)| == |multiset(Sort(IndexLeq, items))| == |multiset(items)|;
  }

  lemma RestAnswered(n: nat, replies: seq<Reply>)
    requires n > 128 && Answered(n, 0, replies)
    ensures (forall k: nat :: 128 * k < n ==> Answered(n, k, replies)) <==>
      (forall k: nat :: 128 * k < n - 128 ==> Answered(n - 128, k, replies[1..]))
  {
    var m, rest := n - 128, replies[1..];
    if forall k: nat :: 128 * k < n ==> Answered(n, k, replies) {
      forall k: nat | 128 * k < m ensures Answered(m, k, rest) {
        AnsweredLater(n, k, replies);
        assert Answered(n, k + 1, replies);
      }
    }
    if forall k: nat :: 128 * k < m ==> Answered(m, k, rest) {
      forall k: nat | 128 * k < n ensures Answered(n, k, replies) {
        if k > 0 {
          AnsweredLater(n, k - 1, replies);
          assert Answered(m, k - 1, rest);
        }
      }
    }
  }

  // The vectors of the later requests stand one request further on.
  lemma RestInPlace(n: nat, first: seq<Vector>, rest: seq<Vector>, replies: seq<Reply>)
    requires n > 128 && |first| == 128 && |rest| == n - 128 && replies != [] && first == Vectors(replies, 0)
    requires forall k: nat :: 128 * k < n - 128 ==>
      rest[128 * k..128 * k + ChunkSize(n - 128, k)] == Vectors(replies[1..], k)
    ensures forall k: nat :: 128 * k < n ==>
      (first + rest)[128 * k..128 * k + ChunkSize(n, k)] == Vectors(replies, k)
  {
    hide Vectors;
    forall k: nat | 128 * k < n
      ensures (first + rest)[128 * k..128 * k + ChunkSize(n, k)] == Vectors(replies, k)
    {
      if k == 0 {
        assert (first + rest)[..128] == first;
      } else {
        VectorsLater(replies, k - 1);
        Shifted(first, rest, 128 * (k - 1), ChunkSize(n, k));
      }
    }
  }

  lemma VectorsLater(replies: seq<Reply>, k: nat)
    requires replies != []
    ensures Vectors(replies, k + 1) == Vectors(replies[1..], k)
  {
    hide Map, Sort;
  }

  lemma Shifted<T>(first: seq<T>, rest: seq<T>, lo: nat, n: nat)
    requires lo + n <= |rest|
    ensures (first + rest)[|first| + lo..|first| + lo + n] == rest[lo..lo + n]
  {
  }

  method EmbedAll(texts: seq<string>, replies: seq<Reply>) returns (r: Option<seq<Vector>>)
    ensures r == Batch(texts, replies)
    ensures r.Some? <==> forall k: nat :: 128 * k < |texts| ==> Answered(|texts|, k, replies)
  {
    BatchExactly(texts, replies);
    var out: seq<Vector> := [];
    var rest, k := texts, 0;
    PrependNothing(Batch(texts, replies));
    assert replies[0..] == replies;
    while rest != []
      invariant 0 <= k <= |replies|
      invariant Batch(texts, replies) == Prepend(out, Batch(rest, replies[k..]))
      decreases |rest|
    {
      var group := Head(rest);
      if k == |replies| || !(replies[k].Data? && |replies[k].items| == |group|) { return None; }
      var data := Sort(IndexLeq, replies[k].items);
      assert replies[k..][1..] == replies[k + 1..];
      PrependTwice(out, Map(Embedding, data), Batch(Tail(rest), replies[k + 1..]));
      out := out + Map(Embedding, data);
      rest := Tail(rest);
      k := k + 1;
    }
    assert out + [] == out;
    return Some(out);
  }

  // The reply the service owes: each text's vector under its position.
  ghost function Honest(embed: string -> Vector, chunk: seq<string>): seq<Item> {
    seq(|chunk|, i requires 0 <= i < |chunk| => Item(i, embed(chunk[i])))
  }

  lemma HonestSorts(embed: string -> Vector, chunk: seq<string>, items: seq<Item>)
    requires multiset(items) == multiset(Honest(embed, chunk))
    ensures Map(Embedding, Sort(IndexLeq, items)) == Map(embed, chunk)
  {
    var honest := Honest(embed, chunk);
    SortSorts(IndexLeq, items);
    assert |items| == |multiset(items)| == |honest|;
    assert Sorted(IndexLeq, honest) && TiesAreEqual(IndexLeq, honest);
    SortedUnique(IndexLeq, honest, Sort(IndexLeq, items));
  }

  // Replies that leave the positions out (all read as 0) but keep the order.
  lemma UnnumberedKeepsOrder(items: seq<Item>)
    requires forall i :: 0 <= i < |items| ==> items[i].index == 0
    ensures Sort(IndexLeq, items) == items
  {
    SortedIsFixed(IndexLeq, items);
  }

  ghost predicate Unnumbered(embed: string -> Vector, chunk: seq<string>, items: seq<Item>) {
    |items| == |chunk| && forall i :: 0 <= i < |chunk| ==> items[i] == Item(0, embed(chunk[i]))
  }

  // A rearrangement of the numbered vectors, or the vectors in order without numbers.
  ghost predicate Faithful(embed: string -> Vector, chunk: seq<string>, reply: Reply) {
    && reply.Data?
    && (multiset(reply.items) == multiset(Honest(embed, chunk)) || Unnumbered(embed, chunk, reply.items))
  }

  ghost predicate AllFaithful(embed: string -> Vector, texts: seq<string>, replies: seq<Reply>)
    decreases |texts|
  {
    texts != [] ==>
      && replies != [] && Faithful(embed, Head(texts), replies[0])
      && AllFaithful(embed, Tail(texts), replies[1..])
  }

  lemma FaithfulChunk(embed: string -> Vector, chunk: seq<string>, reply: Reply)
    requires Faithful(embed, chunk, reply)
    ensures Usable(reply, chunk) && Map(Embedding, Sort(IndexLeq, reply.items)) == Map(embed, chunk)
  {
    if multiset(reply.items) == multiset(Honest(embed, chunk)) {
      assert |reply.items| == |multiset(reply.items)| == |multiset(Honest(embed, chunk))| == |Honest(embed, chunk)|;
      HonestSorts(embed, chunk, reply.items);
    } else {
      UnnumberedKeepsOrder(reply.items);
    }
  }

  /** However the service reorders each reply, the batch is the single embedding
      mapped over the texts in order. */
  lemma {:induction false} BatchIsMap(embed: string -> Vector, texts: seq<string>, replies: seq<Reply>)
    requires AllFaithful(embed, texts, replies)
    ensures Batch(texts, replies) == Some(Map(embed, texts))
    decreases |texts|
  {
    if texts != [] {
      FaithfulChunk(embed, Head(texts), replies[0]);
      BatchIsMap(embed, Tail(texts), replies[1..]);
      HeadTail(texts);
      MapConcat(embed, Head(texts), Tail(texts));
    }
  }
}
