/** The in-memory vector store of the retrieval layer: documents keyed by
    ID, ranked by cosine similarity against a query embedding. The embedding
    model is an oracle (`Embedder`), `math.Sqrt` is a parameter satisfying
    `IsSqrt`, and Go's unspecified map iteration order is an explicit
    enumeration of the keys. */
module VectorStore {
  import opened Wrappers
  import Text
  import Seqs
  import Sorting

  type Vector = seq<real>

  /** A searchable item: `Type` is `kind` here. */
  datatype Document = Document(
    id: string,
    kind: string,
    content: string,
    metadata: map<string, string>,
    embedding: Vector)

  datatype SearchResult = SearchResult(document: Document, similarity: real)

  /** The store's documents and the file it persists to; the client and
      model name are passed to the operations that use them. */
  datatype Store = Store(documents: map<string, Document>, storePath: string)

  /** `client.Embed(ctx, model, text)`. */
  type Embedder = string -> Result<Vector>

  /** `NewStore`: an empty store persisting to `storePath`. */
  function NewStore(storePath: string): (r: Store)
    ensures Count(r) == 0 && r.storePath == storePath
  {
    Store(map[], storePath)
  }

  /** Every document is stored under its own ID. */
  predicate WellKeyed(m: map<string, Document>)
  {
    forall id :: id in m ==> m[id].id == id
  }

  /** `order` lists every key of `m` exactly once: one admissible order of
      a `range` over the map. */
  predicate Enumerates(order: seq<string>, m: map<string, Document>)
  {
    (forall i, j :: 0 <= i < j < |order| ==> order[i] != order[j])
    && (forall i :: 0 <= i < |order| ==> order[i] in m)
    && (forall id :: id in m ==> id in order)
  }

  /** `Count`. */
  function Count(s: Store): nat
  {
    |s.documents|
  }

  /** The client is asked for an embedding only when the document has none. */
  predicate NeedsEmbedding(client: Option<Embedder>, doc: Document)
  {
    |doc.embedding| == 0 && client.Some?
  }

  /** `Add`: upsert the document under its ID, first embedding its content
      when it has no embedding and a client is configured. */
  function Add(s: Store, client: Option<Embedder>, doc: Document): (r: Result<Store>)
    ensures r.Err? <==>
      NeedsEmbedding(client, doc)
      && (client.value(doc.content).Err? || |client.value(doc.content).value| == 0)
    ensures r.Err? && client.value(doc.content).Err? ==>
      r.error == "failed to generate embedding: " + client.value(doc.content).error
    ensures r.Err? && client.value(doc.content).Ok? ==>
      r.error == "generated empty embedding for document " + doc.id
    ensures r.Ok? ==>
      r.value.storePath == s.storePath
      && r.value.documents.Keys == s.documents.Keys + {doc.id}
      && (forall id :: id in s.documents && id != doc.id ==> r.value.documents[id] == s.documents[id])
      && Count(r.value) == Count(s) + (if doc.id in s.documents then 0 else 1)
    ensures r.Ok? && !NeedsEmbedding(client, doc) ==> r.value.documents[doc.id] == doc
    ensures r.Ok? && NeedsEmbedding(client, doc) ==>
      r.value.documents[doc.id] == doc.(embedding := client.value(doc.content).value)
  {
    if NeedsEmbedding(client, doc) then
      match client.value(doc.content)
      case Err(e) => Err("failed to generate embedding: " + e)
      case Ok(v) =>
        if |v| == 0 then Err("generated empty embedding for document " + doc.id)
        else Ok(s.(documents := s.documents[doc.id := doc.(embedding := v)]))
    else Ok(s.(documents := s.documents[doc.id := doc]))
  }

  /** `Add` keeps every document under its own ID. */
  lemma AddWellKeyed(s: Store, client: Option<Embedder>, doc: Document)
    requires WellKeyed(s.documents) && Add(s, client, doc).Ok?
    ensures WellKeyed(Add(s, client, doc).value.documents)
  {
  }

  /** A batch document after its embedding attempt, and the failure message
      when the attempt failed (the document is then stored without one). */
  datatype Prepared = Prepared(doc: Document, failure: Option<string>)

  function Prepare(client: Option<Embedder>, doc: Document): (r: Prepared)
    ensures r.doc.(embedding := doc.embedding) == doc
    ensures r.failure.Some? <==>
      NeedsEmbedding(client, doc)
      && (client.value(doc.content).Err? || |client.value(doc.content).value| == 0)
    ensures r.failure.Some? || !NeedsEmbedding(client, doc) ==> r.doc == doc
    ensures r.failure.None? && NeedsEmbedding(client, doc) ==>
      r.doc.embedding == client.value(doc.content).value && |r.doc.embedding| > 0
  {
    if NeedsEmbedding(client, doc) then
      match client.value(doc.content)
      case Err(e) => Prepared(doc, Some("doc " + doc.id + ": " + e))
      case Ok(v) =>
        if |v| == 0 then Prepared(doc, Some("doc " + doc.id + ": generated empty embedding"))
        else Prepared(doc.(embedding := v), None)
    else Prepared(doc, None)
  }

  /** The IDs of a list of documents. */
  function Ids(docs: seq<Document>): set<string>
  {
    set i | 0 <= i < |docs| :: docs[i].id
  }

  lemma IdsLast(docs: seq<Document>)
    requires |docs| > 0
    ensures Ids(docs) == Ids(docs[..|docs| - 1]) + {docs[|docs| - 1].id}
  {
    var n := |docs| - 1;
    forall id | id in Ids(docs)
      ensures id in Ids(docs[..n]) + {docs[n].id}
    {
      var i :| 0 <= i < |docs| && docs[i].id == id;
      if i < n {
        assert docs[..n][i].id == id;
      }
    }
    forall id | id in Ids(docs[..n])
      ensures id in Ids(docs)
    {
      var i :| 0 <= i < n && docs[..n][i].id == id;
      assert docs[i].id == id;
    }
  }

  /** `j` is the last position holding its ID. */
  predicate LastOfId(docs: seq<Document>, j: int)
  {
    0 <= j < |docs| && forall i :: j < i < |docs| ==> docs[i].id != docs[j].id
  }

  lemma LastOfIdPrefix(docs: seq<Document>, j: int)
    requires LastOfId(docs, j) && j < |docs| - 1
    ensures LastOfId(docs[..|docs| - 1], j) && docs[j].id != docs[|docs| - 1].id
  {
    var n := |docs| - 1;
    forall i | j < i < n
      ensures docs[..n][i].id != docs[..n][j].id
    {
      assert docs[..n][i] == docs[i];
    }
  }

  /** Store the documents one after another, each under its ID. */
  function Upsert(m: map<string, Document>, docs: seq<Document>): (r: map<string, Document>)
    ensures r.Keys == m.Keys + Ids(docs)
    ensures forall j :: LastOfId(docs, j) ==> r[docs[j].id] == docs[j]
    ensures forall id :: id in m && id !in Ids(docs) ==> r[id] == m[id]
    decreases |docs|
  {
    if |docs| == 0 then m
    else
      var n := |docs| - 1;
      var init := Upsert(m, docs[..n]);
      var r := init[docs[n].id := docs[n]];
      IdsLast(docs);
      assert r.Keys == m.Keys + Ids(docs) by {
        IdsLast(docs);
        assert r.Keys == init.Keys + {docs[n].id};
      }
      assert forall j :: LastOfId(docs, j) ==> r[docs[j].id] == docs[j] by {
        forall j | LastOfId(docs, j)
          ensures r[docs[j].id] == docs[j]
        {
          if j < n {
            LastOfIdPrefix(docs, j);
            assert docs[..n][j] == docs[j];
            assert init[docs[..n][j].id] == docs[..n][j];
            assert r[docs[j].id] == init[docs[j].id];
          } else {
            assert j == n;
          }
        }
      }
      r
  }

  /** Documents stored under their own IDs stay so after an upsert. */
  lemma UpsertWellKeyed(m: map<string, Document>, docs: seq<Document>)
    requires WellKeyed(m)
    ensures WellKeyed(Upsert(m, docs))
  {
    var r := Upsert(m, docs);
    forall id | id in r
      ensures r[id].id == id
    {
      if id in Ids(docs) {
        var j :| 0 <= j < |docs| && docs[j].id == id;
        var last := LastPosition(docs, j);
        assert r[docs[last].id] == docs[last];
      }
    }
  }

  /** The last position holding the same ID as position `j`. */
  ghost function LastPosition(docs: seq<Document>, j: nat): (r: nat)
    requires j < |docs|
    ensures j <= r && LastOfId(docs, r) && docs[r].id == docs[j].id
    decreases |docs| - j
  {
    if exists i :: j < i < |docs| && docs[i].id == docs[j].id then
      var i :| j < i < |docs| && docs[i].id == docs[j].id;
      LastPosition(docs, i)
    else j
  }

  /** The documents as a batch stores them. */
  function Stored(client: Option<Embedder>, docs: seq<Document>): (r: seq<Document>)
    ensures |r| == |docs|
    ensures forall i :: 0 <= i < |docs| ==> r[i] == Prepare(client, docs[i]).doc && r[i].id == docs[i].id
    ensures Ids(r) == Ids(docs)
    ensures forall j :: LastOfId(r, j) <==> LastOfId(docs, j)
  {
    var r := seq(|docs|, i requires 0 <= i < |docs| => Prepare(client, docs[i]).doc);
    assert forall i :: 0 <= i < |docs| ==> r[i].id == docs[i].id;
    assert forall id :: id in Ids(r) ==> id in Ids(docs);
    assert forall id :: id in Ids(docs) ==> id in Ids(r) by {
      forall id | id in Ids(docs)
        ensures id in Ids(r)
      {
        var i :| 0 <= i < |docs| && docs[i].id == id;
        assert r[i].id == id;
      }
    }
    r
  }

  /** Every embedding the batch asked for was produced. */
  predicate AllEmbedded(client: Option<Embedder>, docs: seq<Document>)
  {
    forall i :: 0 <= i < |docs| ==> Prepare(client, docs[i]).failure.None?
  }

  /** The failure messages of a batch, in input order. */
  function Failures(client: Option<Embedder>, docs: seq<Document>): (r: seq<string>)
    ensures |r| == 0 <==> AllEmbedded(client, docs)
    ensures |r| <= |docs|
    decreases |docs|
  {
    if |docs| == 0 then []
    else
      var n := |docs| - 1;
      var init := Failures(client, docs[..n]);
      assert AllEmbedded(client, docs) <==>
        AllEmbedded(client, docs[..n]) && Prepare(client, docs[n]).failure.None? by {
        assert forall i :: 0 <= i < n ==> docs[..n][i] == docs[i];
      }
      match Prepare(client, docs[n]).failure
      case Some(f) => init + [f]
      case None => init
  }

  /** How many of the documents need an embedding. */
  function NeededCount(client: Option<Embedder>, docs: seq<Document>): (r: nat)
    ensures r <= |docs|
  {
    if |docs| == 0 then 0
    else NeededCount(client, docs[..|docs| - 1]) + (if NeedsEmbedding(client, docs[|docs| - 1]) then 1 else 0)
  }

  /** `AddBatchParallel`, as its sequential outcome: every document is
      stored in input order (the last of a repeated ID wins), with its
      generated embedding when that succeeded and without one otherwise;
      the error lists the failures. */
  function AddBatch(s: Store, client: Option<Embedder>, docs: seq<Document>): (r: (Store, Option<string>))
    ensures r.0.storePath == s.storePath
    ensures r.0.documents.Keys == s.documents.Keys + Ids(docs)
    ensures forall j :: LastOfId(docs, j) ==> r.0.documents[docs[j].id] == Prepare(client, docs[j]).doc
    ensures forall id :: id in s.documents && id !in Ids(docs) ==> r.0.documents[id] == s.documents[id]
    ensures r.1.None? <==> AllEmbedded(client, docs)
  {
    var m := Upsert(s.documents, Stored(client, docs));
    var failures := Failures(client, docs);
    if |failures| == 0 then (Store(m, s.storePath), None)
    else
      (Store(m, s.storePath), Some(
        "embedding errors (" + Text.IntToDecimal(|failures|) + "/" + Text.IntToDecimal(NeededCount(client, docs))
        + " failed): " + Text.Join(failures, "; ")))
  }

  /** Successive `Add`s without a client. */
  function AddAll(s: Store, docs: seq<Document>): (r: Store)
    ensures r.storePath == s.storePath
    decreases |docs|
  {
    if |docs| == 0 then s
    else
      var init := AddAll(s, docs[..|docs| - 1]);
      Add(init, None, docs[|docs| - 1]).value
  }

  /** Without a client, a batch is the sequence of single `Add`s. */
  lemma {:induction false} AddBatchIsAdds(s: Store, docs: seq<Document>)
    ensures AddBatch(s, None, docs).1.None?
    ensures AddBatch(s, None, docs).0 == AddAll(s, docs)
  {
    AddAllUpserts(s, docs);
    assert Stored(None, docs) == docs;
  }

  lemma {:induction false} AddAllUpserts(s: Store, docs: seq<Document>)
    ensures AddAll(s, docs) == Store(Upsert(s.documents, docs), s.storePath)
    decreases |docs|
  {
    if |docs| > 0 {
      AddAllUpserts(s, docs[..|docs| - 1]);
    }
  }

  /** `Clear`. */
  function Clear(s: Store): (r: Store)
    ensures Count(r) == 0 && r.storePath == s.storePath
  {
    s.(documents := map[])
  }

  /** The document types in enumeration order. */
  function Kinds(m: map<string, Document>, order: seq<string>): (r: seq<string>)
    requires forall i :: 0 <= i < |order| ==> order[i] in m
    ensures |r| == |order|
    ensures forall i :: 0 <= i < |order| ==> r[i] == m[order[i]].kind
  {
    seq(|order|, i requires 0 <= i < |order| => m[order[i]].kind)
  }

  /** An enumeration has one entry per document. */
  lemma EnumerationSize(order: seq<string>, m: map<string, Document>)
    requires Enumerates(order, m)
    ensures |order| == |m|
  {
    DistinctCardinality(order);
    assert Elements(order) == m.Keys;
  }

  function Elements(s: seq<string>): set<string>
  {
    set x | x in s
  }

  lemma {:induction false} DistinctCardinality(s: seq<string>)
    requires forall i, j :: 0 <= i < j < |s| ==> s[i] != s[j]
    ensures |Elements(s)| == |s|
  {
    if |s| > 0 {
      var n := |s| - 1;
      DistinctCardinality(s[..n]);
      assert s == s[..n] + [s[n]];
      assert s[n] !in Elements(s[..n]);
      assert Elements(s) == Elements(s[..n]) + {s[n]};
    }
  }

  /** `CountByType`: one entry per type, counting its documents; the counts
      add up to `Count`. */
  function CountByType(s: Store, order: seq<string>): (r: seq<Seqs.Entry>)
    requires Enumerates(order, s.documents)
    ensures Seqs.DistinctKeys(r)
    ensures forall t :: Seqs.CountOf(r, t) == multiset(Kinds(s.documents, order))[t]
    ensures Seqs.Total(r) == Count(s)
  {
    var r := Seqs.Tally(Kinds(s.documents, order));
    Seqs.TallyTotal(Kinds(s.documents, order));
    EnumerationSize(order, s.documents);
    r
  }

  // ---- Cosine similarity ----

  /** `math.Sqrt` on the non-negative reals. */
  ghost predicate IsSqrt(sqrt: real -> real)
  {
    forall x :: x >= 0.0 ==> sqrt(x) >= 0.0 && sqrt(x) * sqrt(x) == x
  }

  /** The dot product, accumulated left to right. */
  function Dot(a: Vector, b: Vector): real
    requires |a| == |b|
  {
    if |a| == 0 then 0.0 else Dot(a[..|a| - 1], b[..|b| - 1]) + a[|a| - 1] * b[|b| - 1]
  }

  lemma {:induction false} DotSymmetric(a: Vector, b: Vector)
    requires |a| == |b|
    ensures Dot(a, b) == Dot(b, a)
  {
    if |a| > 0 {
      DotSymmetric(a[..|a| - 1], b[..|b| - 1]);
    }
  }

  lemma {:induction false} DotSelfNonNegative(a: Vector)
    ensures Dot(a, a) >= 0.0
  {
    if |a| > 0 {
      DotSelfNonNegative(a[..|a| - 1]);
    }
  }

  function Negate(v: Vector): (r: Vector)
    ensures |r| == |v| && forall i :: 0 <= i < |v| ==> r[i] == -v[i]
  {
    seq(|v|, i requires 0 <= i < |v| => -v[i])
  }

  lemma {:induction false} DotNegate(a: Vector)
    ensures Dot(a, Negate(a)) == -Dot(a, a)
    ensures Dot(Negate(a), Negate(a)) == Dot(a, a)
  {
    if |a| > 0 {
      var n := |a| - 1;
      assert Negate(a)[..n] == Negate(a[..n]);
      DotNegate(a[..n]);
    }
  }

  /** The square root of a positive number is positive. */
  lemma SqrtPositive(sqrt: real -> real, x: real)
    requires IsSqrt(sqrt) && x > 0.0
    ensures sqrt(x) > 0.0
  {
    assert sqrt(x) >= 0.0 && sqrt(x) * sqrt(x) == x;
  }

  /** `cosineSimilarity`: 0 for vectors of different or zero length and
      for a zero vector, otherwise the dot product over the norms. */
  function Cosine(a: Vector, b: Vector, sqrt: real -> real): (r: real)
    requires IsSqrt(sqrt)
    ensures |a| != |b| || |a| == 0 ==> r == 0.0
    ensures |a| == |b| && (Dot(a, a) == 0.0 || Dot(b, b) == 0.0) ==> r == 0.0
    ensures |a| == |b| && |a| > 0 && Dot(a, a) != 0.0 && Dot(b, b) != 0.0 ==>
      r * (sqrt(Dot(a, a)) * sqrt(Dot(b, b))) == Dot(a, b)
  {
    if |a| != |b| || |a| == 0 then 0.0
    else
      var dot, normA, normB := Dot(a, b), Dot(a, a), Dot(b, b);
      if normA == 0.0 || normB == 0.0 then 0.0
      else
        DotSelfNonNegative(a);
        DotSelfNonNegative(b);
        SqrtPositive(sqrt, normA);
        SqrtPositive(sqrt, normB);
        var d := sqrt(normA) * sqrt(normB);
        assert d > 0.0;
        dot / d
  }

  /** The similarity does not depend on the order of its arguments. */
  lemma CosineSymmetric(a: Vector, b: Vector, sqrt: real -> real)
    requires IsSqrt(sqrt)
    ensures Cosine(a, b, sqrt) == Cosine(b, a, sqrt)
  {
    if |a| == |b| {
      DotSymmetric(a, b);
    }
  }

  /** A non-zero vector is perfectly similar to itself. */
  lemma CosineSelf(v: Vector, sqrt: real -> real)
    requires IsSqrt(sqrt) && Dot(v, v) != 0.0
    ensures Cosine(v, v, sqrt) == 1.0
  {
    var n := Dot(v, v);
    DotSelfNonNegative(v);
    SqrtSquare(sqrt, n);
    UnitRatio(Cosine(v, v, sqrt), sqrt(n), n, 1.0);
  }

  /** A non-zero vector is perfectly dissimilar to its negation. */
  lemma CosineNegated(v: Vector, sqrt: real -> real)
    requires IsSqrt(sqrt) && Dot(v, v) != 0.0
    ensures Cosine(v, Negate(v), sqrt) == -1.0
  {
    DotNegate(v);
    CosineOpposite(v, Negate(v), sqrt);
  }

  /** Two vectors of equal non-zero norm whose dot product is minus that
      norm have similarity -1. */
  lemma CosineOpposite(a: Vector, b: Vector, sqrt: real -> real)
    requires IsSqrt(sqrt) && |a| == |b|
    requires Dot(a, a) != 0.0 && Dot(b, b) == Dot(a, a) && Dot(a, b) == -Dot(a, a)
    ensures Cosine(a, b, sqrt) == -1.0
  {
    var n := Dot(a, a);
    DotSelfNonNegative(a);
    SqrtSquare(sqrt, n);
    assert |a| > 0;
    UnitRatio(Cosine(a, b, sqrt), sqrt(n), n, -1.0);
  }

  lemma SqrtSquare(sqrt: real -> real, x: real)
    requires IsSqrt(sqrt) && x >= 0.0
    ensures sqrt(x) * sqrt(x) == x
  {
  }

  /** A ratio over a non-zero square of `q`. */
  lemma UnitRatio(r: real, q: real, n: real, y: real)
    requires n != 0.0 && q * q == n && r * (q * q) == y * n
    ensures r == y
  {
    assert (r - y) * n == 0.0;
  }

  // ---- Search ----

  /** The documents `Search` considers: of the requested type ("" and "all"
      mean every type) and with an embedding. */
  predicate Eligible(docType: string, doc: Document)
  {
    (docType == "" || docType == "all" || doc.kind == docType) && |doc.embedding| > 0
  }

  /** The eligible documents of the store. */
  function EligibleDocs(m: map<string, Document>, docType: string): set<Document>
  {
    set id | id in m && Eligible(docType, m[id]) :: m[id]
  }

  /** The eligible documents among the first keys of an enumeration. */
  function EligibleAmong(m: map<string, Document>, order: seq<string>, docType: string): set<Document>
  {
    set id | id in m && id in order && Eligible(docType, m[id]) :: m[id]
  }

  /** The documents of a list of results. */
  function DocsOf(r: seq<SearchResult>): set<Document>
  {
    set i | 0 <= i < |r| :: r[i].document
  }

  /** An eligible document paired with its similarity to the query. */
  predicate Scored(query: Vector, docType: string, sqrt: real -> real, x: SearchResult)
    requires IsSqrt(sqrt)
  {
    Eligible(docType, x.document) && x.similarity == Cosine(query, x.document.embedding, sqrt)
  }

  lemma EligibleAmongLast(m: map<string, Document>, order: seq<string>, docType: string)
    requires |order| > 0 && order[|order| - 1] in m
    ensures var n := |order| - 1;
      EligibleAmong(m, order, docType) == EligibleAmong(m, order[..n], docType)
        + (if Eligible(docType, m[order[n]]) then {m[order[n]]} else {})
  {
    var n := |order| - 1;
    assert order == order[..n] + [order[n]];
    assert forall id :: id in order <==> id in order[..n] || id == order[n];
  }

  lemma DocsOfLast(r: seq<SearchResult>, x: SearchResult)
    ensures DocsOf(r + [x]) == DocsOf(r) + {x.document}
  {
    var s := r + [x];
    assert s[|r|] == x;
    forall d | d in DocsOf(r)
      ensures d in DocsOf(s)
    {
      var i :| 0 <= i < |r| && r[i].document == d;
      assert s[i] == r[i];
    }
  }

  /** The eligible documents scored against the query, in enumeration order. */
  function Candidates(m: map<string, Document>, order: seq<string>, query: Vector, docType: string, sqrt: real -> real)
    : (r: seq<SearchResult>)
    requires IsSqrt(sqrt)
    requires forall i :: 0 <= i < |order| ==> order[i] in m
    ensures forall i :: 0 <= i < |r| ==> Scored(query, docType, sqrt, r[i])
    ensures DocsOf(r) == EligibleAmong(m, order, docType)
    decreases |order|
  {
    if |order| == 0 then []
    else
      var n := |order| - 1;
      var init := Candidates(m, order[..n], query, docType, sqrt);
      var doc := m[order[n]];
      EligibleAmongLast(m, order, docType);
      if Eligible(docType, doc) then
        var x := SearchResult(doc, Cosine(query, doc.embedding, sqrt));
        DocsOfLast(init, x);
        init + [x]
      else init
  }

  /** With a complete enumeration every eligible document is a candidate. */
  lemma EnumeratedEligible(m: map<string, Document>, order: seq<string>, docType: string)
    requires Enumerates(order, m)
    ensures EligibleAmong(m, order, docType) == EligibleDocs(m, docType)
  {
  }

  /** `sort.Slice` with `Similarity` descending. */
  predicate MoreSimilar(a: SearchResult, b: SearchResult)
  {
    a.similarity > b.similarity
  }

  /** The results by non-increasing similarity. */
  predicate BySimilarity(r: seq<SearchResult>)
  {
    forall i, j :: 0 <= i < j < |r| ==> r[i].similarity >= r[j].similarity
  }

  /** The candidates by non-increasing similarity. */
  function Ranked(all: seq<SearchResult>): (r: seq<SearchResult>)
    ensures multiset(r) == multiset(all)
    ensures BySimilarity(r)
  {
    var r := Sorting.Sort(MoreSimilar, all);
    Sorting.SortSorted(MoreSimilar, all);
    r
  }

  /** A prefix of a ranking leaves out nothing more similar than what it
      keeps. */
  lemma RankedPrefix(all: seq<SearchResult>, k: int, i: int, c: SearchResult)
    requires 0 <= i < |Seqs.ApplyLimit(Ranked(all), k)|
    requires c in all && c !in Seqs.ApplyLimit(Ranked(all), k)
    ensures Seqs.ApplyLimit(Ranked(all), k)[i].similarity >= c.similarity
  {
    var sorted := Ranked(all);
    var r := Seqs.ApplyLimit(sorted, k);
    assert c in multiset(sorted);
    var j :| 0 <= j < |sorted| && sorted[j] == c;
    assert forall t :: 0 <= t < |r| ==> sorted[t] == r[t];
    assert r[i] == sorted[i];
  }

  /** What cutting a ranking to `limit` keeps: the most similar
      candidates, every one of them when there is no limit. */
  lemma LimitedRanking(all: seq<SearchResult>, limit: int)
    ensures var r := Seqs.ApplyLimit(Ranked(all), limit);
      BySimilarity(r)
      && multiset(r) <= multiset(all)
      && (limit <= 0 ==> multiset(r) == multiset(all))
      && (forall i, c :: 0 <= i < |r| && c in all && c !in r ==> r[i].similarity >= c.similarity)
  {
    var sorted := Ranked(all);
    var r := Seqs.ApplyLimit(sorted, limit);
    assert r + sorted[|r|..] == sorted;
    assert multiset(sorted) == multiset(r) + multiset(sorted[|r|..]);
    forall i, c | 0 <= i < |r| && c in all && c !in r
      ensures r[i].similarity >= c.similarity
    {
      RankedPrefix(all, limit, i, c);
    }
  }

  /** `Search`: the eligible documents by decreasing similarity to the
      query embedding, cut to `limit` when it is positive. */
  function Search(s: Store, order: seq<string>, query: Result<Vector>, limit: int, docType: string, sqrt: real -> real)
    : (r: Result<seq<SearchResult>>)
    requires IsSqrt(sqrt) && Enumerates(order, s.documents)
    ensures r.Err? <==> query.Err?
    ensures r.Err? ==> r.error == "failed to generate query embedding: " + query.error
    ensures r.Ok? ==> forall i :: 0 <= i < |r.value| ==> Scored(query.value, docType, sqrt, r.value[i])
    ensures r.Ok? ==> BySimilarity(r.value)
    ensures r.Ok? ==> var all := Candidates(s.documents, order, query.value, docType, sqrt);
      |r.value| == (if 0 < limit < |all| then limit else |all|)
      && multiset(r.value) <= multiset(all)
      && (limit <= 0 ==> multiset(r.value) == multiset(all))
      && (forall i, c :: 0 <= i < |r.value| && c in all && c !in r.value ==> r.value[i].similarity >= c.similarity)
  {
    match query
    case Err(e) => Err("failed to generate query embedding: " + e)
    case Ok(q) =>
      var all := Candidates(s.documents, order, q, docType, sqrt);
      var r := Seqs.ApplyLimit(Ranked(all), limit);
      LimitedRanking(all, limit);
      assert forall i :: 0 <= i < |r| ==> r[i] in multiset(all) by {
        forall i | 0 <= i < |r|
          ensures r[i] in multiset(all)
        {
          assert r[i] in multiset(r);
        }
      }
      Ok(r)
  }

  /** Without a limit, the results are exactly the eligible documents. */
  lemma SearchFindsEligible(s: Store, order: seq<string>, query: Vector, docType: string, sqrt: real -> real)
    requires IsSqrt(sqrt) && Enumerates(order, s.documents)
    ensures DocsOf(Search(s, order, Ok(query), 0, docType, sqrt).value) == EligibleDocs(s.documents, docType)
  {
    var all := Candidates(s.documents, order, query, docType, sqrt);
    var r := Search(s, order, Ok(query), 0, docType, sqrt).value;
    EnumeratedEligible(s.documents, order, docType);
    forall d | d in DocsOf(all)
      ensures d in DocsOf(r)
    {
      var i :| 0 <= i < |all| && all[i].document == d;
      assert all[i] in multiset(r);
      var j :| 0 <= j < |r| && r[j] == all[i];
    }
    forall d | d in DocsOf(r)
      ensures d in DocsOf(all)
    {
      var j :| 0 <= j < |r| && r[j].document == d;
      assert r[j] in multiset(all);
      var i :| 0 <= i < |all| && all[i] == r[j];
    }
  }

  // ---- Persistence ----

  /** What reading the store file gave: no file, a read error, a decoding
      error, or the saved document list. */
  datatype StoredFile = Missing | Unreadable(err: string) | Malformed(err: string) | Saved(docs: seq<Document>)

  /** The documents in enumeration order: the list `Save` writes. */
  function Snapshot(s: Store, order: seq<string>): (r: seq<Document>)
    requires Enumerates(order, s.documents)
    ensures |r| == |order| == Count(s)
    ensures forall i :: 0 <= i < |order| ==> r[i] == s.documents[order[i]]
    ensures forall d :: d in r <==> d in s.documents.Values
  {
    EnumerationSize(order, s.documents);
    var docs := seq(|order|, i requires 0 <= i < |order| => s.documents[order[i]]);
    assert forall d :: d in s.documents.Values ==> d in docs by {
      forall d | d in s.documents.Values
        ensures d in docs
      {
        var id :| id in s.documents && s.documents[id] == d;
        var k :| 0 <= k < |order| && order[k] == id;
        assert docs[k] == d;
      }
    }
    docs
  }

  /** `Save`: write the snapshot to the store file. `mkdir` is the error, if
      any, of creating the file's directory and `write` that of writing the
      file; the first failure is reported. */
  function Save(s: Store, order: seq<string>, mkdir: Option<string>, write: Option<string>)
    : (r: Result<seq<Document>>)
    requires Enumerates(order, s.documents)
    ensures r.Err? <==> s.storePath == "" || mkdir.Some? || write.Some?
    ensures s.storePath == "" ==> r.error == "no store path configured"
    ensures s.storePath != "" && mkdir.Some? ==> r.error == "failed to create directory: " + mkdir.value
    ensures s.storePath != "" && mkdir.None? && write.Some? ==> r.error == "failed to write store: " + write.value
    ensures r.Ok? ==> r.value == Snapshot(s, order)
  {
    if s.storePath == "" then Err("no store path configured")
    else if mkdir.Some? then Err("failed to create directory: " + mkdir.value)
    else if write.Some? then Err("failed to write store: " + write.value)
    else Ok(Snapshot(s, order))
  }

  /** `Load`: replace the documents with those of the store file; a missing
      file leaves the store as it is. */
  function Load(s: Store, file: StoredFile): (r: Result<Store>)
    ensures s.storePath == "" ==> r == Err("no store path configured")
    ensures s.storePath != "" && file.Missing? ==> r == Ok(s)
    ensures s.storePath != "" && file.Unreadable? ==> r == Err("failed to read store: " + file.err)
    ensures s.storePath != "" && file.Malformed? ==> r == Err("failed to unmarshal documents: " + file.err)
    ensures s.storePath != "" && file.Saved? ==>
      r.Ok? && r.value.storePath == s.storePath && WellKeyed(r.value.documents)
      && r.value.documents.Keys == Ids(file.docs)
      && forall j :: LastOfId(file.docs, j) ==> r.value.documents[file.docs[j].id] == file.docs[j]
  {
    if s.storePath == "" then Err("no store path configured")
    else
      match file
      case Missing => Ok(s)
      case Unreadable(e) => Err("failed to read store: " + e)
      case Malformed(e) => Err("failed to unmarshal documents: " + e)
      case Saved(docs) =>
        UpsertWellKeyed(map[], docs);
        Ok(Store(Upsert(map[], docs), s.storePath))
  }

  /** Loading what a successful save wrote restores the same ID-to-document
      map, whatever the loading store held before. */
  lemma LoadSave(s: Store, order: seq<string>, mkdir: Option<string>, write: Option<string>, t: Store)
    requires WellKeyed(s.documents) && Enumerates(order, s.documents)
    requires Save(s, order, mkdir, write).Ok? && t.storePath == s.storePath
    ensures Load(t, Saved(Save(s, order, mkdir, write).value)) == Ok(s)
  {
    SavedMap(s, order);
  }

  /** Upserting the saved list into an empty map gives the documents back. */
  lemma SavedMap(s: Store, order: seq<string>)
    requires WellKeyed(s.documents) && Enumerates(order, s.documents)
    ensures Upsert(map[], Snapshot(s, order)) == s.documents
  {
    var docs := Snapshot(s, order);
    var m := Upsert(map[], docs);
    SavedIds(s, order);
    forall id | id in s.documents
      ensures id in m && m[id] == s.documents[id]
    {
      var k :| 0 <= k < |order| && order[k] == id;
      assert LastOfId(docs, k);
    }
  }

  /** The saved list holds each ID once, in enumeration order. */
  lemma SavedIds(s: Store, order: seq<string>)
    requires WellKeyed(s.documents) && Enumerates(order, s.documents)
    ensures forall i :: 0 <= i < |order| ==> Snapshot(s, order)[i].id == order[i]
    ensures Ids(Snapshot(s, order)) == s.documents.Keys
  {
    var docs := Snapshot(s, order);
    assert forall i :: 0 <= i < |docs| ==> docs[i].id == order[i];
  }
}
