/**
 * The dedupe step of the sync pipeline: the non-null normalised documents
 * are put into a JavaScript `Map` keyed by `metadata.documentId`, in fetch
 * order, and `Array.from(map.values())` is taken. A JavaScript `Map` keeps
 * each key where it was first inserted and `set` on a present key replaces
 * its value, so the result has one document per key, keys in order of first
 * appearance, each carrying the LAST document seen with that key.
 */
module Dedupe {
  import opened Wrappers
  import opened Normalizer

  /** The map key: `documentId`, which may be `undefined` (one shared key). */
  type Key = Option<string>

  function KeyOf(d: Document): Key {
    d.metadata.documentId
  }

  /** Every key carried by some document of `docs`. */
  function KeysOf(docs: seq<Document>): set<Key> {
    set d | d in docs :: KeyOf(d)
  }

  /** The last element of a non-empty sequence, and everything before it. */
  function Last<T>(s: seq<T>): T requires s != [] { s[|s| - 1] }
  function Init<T>(s: seq<T>): seq<T> requires s != [] { s[..|s| - 1] }

  /** `processedDocs.filter(Boolean)`: the documents, dropping `null`s, in order. */
  function Compact(xs: seq<Option<Document>>): (r: seq<Document>)
    ensures |r| <= |xs|
    ensures forall d :: d in r <==> Some(d) in xs
    ensures |xs| == 1 ==> r == if xs[0].Some? then [xs[0].value] else []
  {
    if xs == [] then []
    else
      var rest := Compact(xs[1..]);
      assert forall x :: x in xs <==> x == xs[0] || x in xs[1..];
      if xs[0].Some? then [xs[0].value] + rest else rest
  }

  /** Dropping `null`s keeps the order: it distributes over concatenation. */
  lemma {:induction false} CompactAppend(a: seq<Option<Document>>, b: seq<Option<Document>>)
    ensures Compact(a + b) == Compact(a) + Compact(b)
  {
    if a == [] {
      assert a + b == b;
    } else {
      assert (a + b)[0] == a[0];
      assert (a + b)[1..] == a[1..] + b;
      CompactAppend(a[1..], b);
    }
  }

  /**
   * The distinct keys of `docs` in order of first appearance: pairwise
   * distinct, and exactly the keys the documents carry.
   */
  function KeysInOrder(docs: seq<Document>): (r: seq<Key>)
    ensures forall i, j :: 0 <= i < j < |r| ==> r[i] != r[j]
    ensures forall k :: k in r <==> k in KeysOf(docs)
  {
    if docs == [] then []
    else
      var prefix := KeysInOrder(Init(docs));
      assert docs == Init(docs) + [Last(docs)];
      assert KeysOf(docs) == KeysOf(Init(docs)) + {KeyOf(Last(docs))};
      if KeyOf(Last(docs)) in prefix then prefix else prefix + [KeyOf(Last(docs))]
  }

  /** The last document of `docs` whose key is `k`, if there is one. */
  function LastWith(docs: seq<Document>, k: Key): (r: Option<Document>)
    ensures r.Some? <==> k in KeysOf(docs)
    ensures r.Some? ==> r.value in docs && KeyOf(r.value) == k
  {
    if docs == [] then None
    else
      assert docs == Init(docs) + [Last(docs)];
      assert KeysOf(docs) == KeysOf(Init(docs)) + {KeyOf(Last(docs))};
      if KeyOf(Last(docs)) == k then Some(Last(docs)) else LastWith(Init(docs), k)
  }

  /** For each key of `ks`, in order, the last document of `docs` with it. */
  function Collect(docs: seq<Document>, ks: seq<Key>): (r: seq<Document>)
    requires forall k :: k in ks ==> k in KeysOf(docs)
    ensures |r| == |ks|
    ensures forall j :: 0 <= j < |ks| ==> Some(r[j]) == LastWith(docs, ks[j])
  {
    if ks == [] then [] else [LastWith(docs, ks[0]).value] + Collect(docs, ks[1..])
  }

  /**
   * The deduplicated documents: one per distinct key, keys in order of
   * first appearance, each the last document of `docs` with that key.
   */
  function Unique(docs: seq<Document>): (r: seq<Document>)
    ensures |r| == |KeysInOrder(docs)|
    ensures forall j :: 0 <= j < |r| ==>
      KeyOf(r[j]) == KeysInOrder(docs)[j] && Some(r[j]) == LastWith(docs, KeyOf(r[j]))
  {
    Collect(docs, KeysInOrder(docs))
  }

  /**
   * The `forEach(doc => uniqueDocs.set(documentId, doc))` loop over a
   * JavaScript `Map`, followed by `Array.from(uniqueDocs.values())`. The Map
   * is modelled by its keys in insertion order and a finite map of values.
   */
  method Dedupe(docs: seq<Document>) returns (unique: seq<Document>)
    ensures unique == Unique(docs)
  {
    var order: seq<Key> := [];
    var values: map<Key, Document> := map[];
    var i := 0;
    while i < |docs|
      invariant 0 <= i <= |docs|
      invariant order == KeysInOrder(docs[..i])
      invariant forall k :: k in values <==> k in order
      invariant forall k :: k in values ==> Some(values[k]) == LastWith(docs[..i], k)
    {
      var doc := docs[i];
      assert Init(docs[..i + 1]) == docs[..i] && Last(docs[..i + 1]) == doc;
      if KeyOf(doc) !in values {
        order := order + [KeyOf(doc)];
      }
      values := values[KeyOf(doc) := doc];
      i := i + 1;
    }
    assert docs[..i] == docs;
    unique := seq(|order|, j requires 0 <= j < |order| => values[order[j]]);
    assert |unique| == |Unique(docs)|;
    forall j | 0 <= j < |unique| ensures unique[j] == Unique(docs)[j] {
      assert Some(unique[j]) == LastWith(docs, order[j]);
    }
  }

  /** After dedupe each `documentId` occurs at most once. */
  lemma UniqueKeysDistinct(docs: seq<Document>)
    ensures forall i, j :: 0 <= i < j < |Unique(docs)| ==> KeyOf(Unique(docs)[i]) != KeyOf(Unique(docs)[j])
  {
  }

  /** No key is lost: every input document's key has a survivor. */
  lemma UniqueKeepsEveryKey(docs: seq<Document>, d: Document)
    requires d in docs
    ensures exists j :: 0 <= j < |Unique(docs)| && KeyOf(Unique(docs)[j]) == KeyOf(d)
  {
    var ks := KeysInOrder(docs);
    assert KeyOf(d) in KeysOf(docs);
    var j :| 0 <= j < |ks| && ks[j] == KeyOf(d);
    assert KeyOf(Unique(docs)[j]) == KeyOf(d);
  }

  /**
   * `LastWith` is the last write: the document it returns stands at some
   * position of `docs`, and no later position carries the same key.
   */
  lemma {:induction false} LastWithIsLast(docs: seq<Document>, k: Key)
    requires LastWith(docs, k).Some?
    ensures exists p :: && 0 <= p < |docs| && docs[p] == LastWith(docs, k).value
                        && forall q :: p < q < |docs| ==> KeyOf(docs[q]) != k
  {
    var n := |docs|;
    if KeyOf(docs[n - 1]) == k {
      assert docs[n - 1] == LastWith(docs, k).value;
    } else {
      var init := Init(docs);
      LastWithIsLast(init, k);
      var p :| 0 <= p < |init| && init[p] == LastWith(init, k).value &&
        forall q :: p < q < |init| ==> KeyOf(init[q]) != k;
      assert docs[p] == init[p];
      forall q | p < q < n ensures KeyOf(docs[q]) != k {
        if q < n - 1 { assert docs[q] == init[q]; }
      }
    }
  }

  /** The last record wins: every survivor is the last document with its key. */
  lemma UniqueLastWins(docs: seq<Document>, j: nat)
    requires j < |Unique(docs)|
    ensures exists p :: && 0 <= p < |docs| && docs[p] == Unique(docs)[j]
                        && forall q :: p < q < |docs| ==> KeyOf(docs[q]) != KeyOf(Unique(docs)[j])
  {
    LastWithIsLast(docs, KeyOf(Unique(docs)[j]));
  }

  /** Two records with the same `documentId`: only the later one survives. */
  lemma LaterDuplicateWins(a: Document, b: Document)
    requires KeyOf(a) == KeyOf(b)
    ensures Unique([a, b]) == [b]
  {
    assert Init([a, b]) == [a] && Last([a, b]) == b;
    assert Init([a]) == [] && Last([a]) == a;
    assert KeysInOrder([a]) == [KeyOf(a)];
    assert KeysInOrder([a, b]) == [KeyOf(a)];
  }

  /**
   * The survivors keep the order in which their keys first appeared: for
   * `i < j`, key `i` occurs in `docs` before key `j` first does.
   */
  lemma {:induction false} KeysInOrderFirstAppearance(docs: seq<Document>, i: nat, j: nat)
    requires i < j < |KeysInOrder(docs)|
    ensures exists p :: && 0 <= p < |docs| && KeyOf(docs[p]) == KeysInOrder(docs)[i]
                        && forall q :: 0 <= q <= p ==> KeyOf(docs[q]) != KeysInOrder(docs)[j]
  {
    var init := Init(docs);
    var ks, ks' := KeysInOrder(docs), KeysInOrder(init);
    assert docs == init + [Last(docs)];
    if j < |ks'| {
      KeysInOrderFirstAppearance(init, i, j);
      var p :| 0 <= p < |init| && KeyOf(init[p]) == ks'[i] &&
        forall q :: 0 <= q <= p ==> KeyOf(init[q]) != ks'[j];
      assert docs[p] == init[p];
      forall q | 0 <= q <= p ensures KeyOf(docs[q]) != ks[j] {
        assert docs[q] == init[q];
      }
    } else {
      // key j is the key of the last document, absent from every earlier one
      assert ks == ks' + [KeyOf(Last(docs))] && ks[j] == KeyOf(Last(docs));
      assert ks[i] in KeysOf(init);
      var d :| d in init && KeyOf(d) == ks[i];
      var p :| 0 <= p < |init| && init[p] == d;
      assert docs[p] == d;
      forall q | 0 <= q <= p ensures KeyOf(docs[q]) != ks[j] {
        assert docs[q] == init[q];
        assert KeyOf(init[q]) in KeysOf(init);
      }
    }
  }
}
