/** Hybrid retrieval (ragsvc/index/search.py): two ranked lists fused, hydrated,
    attributed and perhaps reranked, over the stores of module Corpus. */
module Search {
  import opened Codes
  import opened Sorting
  import opened Fuse
  import opened Corpus

  datatype Hit = Hit(id: Fuse.Id, row: Row, score: real, ranks: map<Text, nat>, reranked: bool)

  const DENSE: Text := Lit("dense")
  const SPARSE: Text := Lit("sparse")

  function Lists(dense: seq<Fuse.Id>,
    sparse: seq<Fuse.Id>): seq<RankedList> { [RankedList(DENSE, dense), RankedList(SPARSE, sparse)] }

  /** The payloads at hand, and the rows of the other candidates that have one. */
  function Hydrated(fused: seq<Fused>, payloads: map<Fuse.Id, Row>, chunks: map<Fuse.Id, Row>): map<Fuse.Id, Row> {
    if fused == [] then payloads
    else
      var full, id := Hydrated(fused[..|fused| - 1], payloads, chunks), fused[|fused| - 1].id;
      if id !in payloads && id in chunks then full[id := chunks[id]] else full
  }

  /** _hydrate: the payloads at hand, and chunk rows for ids that have none. */
  method Hydrate(fused: seq<Fused>, payloads: map<Fuse.Id, Row>, chunks: map<Fuse.Id, Row>)
    returns (full: map<Fuse.Id, Row>)
    ensures forall id :: id in payloads ==> id in full && full[id] == payloads[id]
    ensures forall f :: f in fused && f.id !in payloads ==> (f.id in full <==> f.id in chunks)
    ensures forall id :: id in full && id !in payloads ==> id in chunks && full[id] == chunks[id]
    ensures full == Hydrated(fused, payloads, chunks)
  {
    full := payloads;
    for i := 0 to |fused|
      invariant forall id :: id in payloads ==> id in full && full[id] == payloads[id]
      invariant forall k :: 0 <= k < i && fused[k].id !in payloads ==> (fused[k].id in full <==> fused[k].id in chunks)
      invariant forall id :: id in full && id !in payloads ==> id in chunks && full[id] == chunks[id]
      invariant full == Hydrated(fused[..i], payloads, chunks)
    {
      assert fused[..i + 1][..i] == fused[..i];
      if fused[i].id !in payloads && fused[i].id in chunks { full := full[fused[i].id := chunks[fused[i].id]]; }
    }
    assert fused[..|fused|] == fused;
  }

  /** Candidates that can be attributed to a file. */
  function Attributed(fused: seq<Fused>, payloads: map<Fuse.Id, Row>): seq<Fused> {
    if fused == [] then []
    else
      var last := fused[|fused| - 1];
      Attributed(fused[..|fused| - 1], payloads)
      + (if last.id in payloads && payloads[last.id].filename != [] then [last] else [])
  }

  lemma AttributedAre(fused: seq<Fused>, payloads: map<Fuse.Id, Row>)
    ensures forall f :: f in Attributed(fused, payloads) <==>
      f in fused && f.id in payloads && payloads[f.id].filename != []
    ensures (forall f :: f in fused ==> f.id in payloads && payloads[f.id].filename != []) ==>
      Attributed(fused, payloads) == fused
    ensures InOrder(fused, Ahead) ==> InOrder(Attributed(fused, payloads), Ahead)
  {
    AttributedMembers(fused, payloads);
    if forall f :: f in fused ==> f.id in payloads && payloads[f.id].filename != [] { AttributedAll(fused, payloads); }
    if InOrder(fused, Ahead) { AttributedInOrder(fused, payloads); }
  }

  lemma {:induction false} AttributedMembers(fused: seq<Fused>, payloads: map<Fuse.Id, Row>)
    ensures forall f :: f in Attributed(fused, payloads) <==>
      f in fused && f.id in payloads && payloads[f.id].filename != []
  {
    if fused != [] {
      AttributedMembers(fused[..|fused| - 1], payloads);
      assert fused == fused[..|fused| - 1] + [fused[|fused| - 1]];
    }
  }

  lemma {:induction false} AttributedAll(fused: seq<Fused>, payloads: map<Fuse.Id, Row>)
    requires forall f :: f in fused ==> f.id in payloads && payloads[f.id].filename != []
    ensures Attributed(fused, payloads) == fused
  {
    if fused != [] {
      AttributedAll(fused[..|fused| - 1], payloads);
      assert fused[|fused| - 1] in fused;
      assert fused == fused[..|fused| - 1] + [fused[|fused| - 1]];
    }
  }

  lemma {:induction false} AttributedInOrder(fused: seq<Fused>, payloads: map<Fuse.Id, Row>)
    requires InOrder(fused, Ahead)
    ensures InOrder(Attributed(fused, payloads), Ahead)
  {
    hide Ahead;
    if fused != [] {
      var init := fused[..|fused| - 1];
      AttributedInOrder(init, payloads);
      AttributedMembers(init, payloads);
      KeptInOrder(fused, Attributed(init, payloads));
      assert Attributed(init, payloads) + [] == Attributed(init, payloads);
    }
  }

  lemma KeptInOrder(fused: seq<Fused>, kept: seq<Fused>)
    requires fused != [] && InOrder(fused, Ahead) && InOrder(kept, Ahead)
    requires forall f :: f in kept ==> f in fused[..|fused| - 1]
    ensures InOrder(kept + [fused[|fused| - 1]], Ahead)
  {
    hide Ahead;
    var init, last := fused[..|fused| - 1], fused[|fused| - 1];
    forall i | 0 <= i < |kept| ensures Ahead(kept[i], last) {
      assert kept[i] in kept && kept[i] in init;
      var k :| 0 <= k < |init| && init[k] == kept[i];
      assert Ahead(fused[k], fused[|fused| - 1]);
    }
  }

  /** The logit of a candidate's text. */
  function LogitOf(payloads: map<Fuse.Id, Row>, logit: Text -> real, f: Fused): real {
    if f.id in payloads then logit(payloads[f.id].text) else 0.0
  }

  /** key=lambda pair: float(pair[1]), reverse=True */
  function ByLogit(payloads: map<Fuse.Id, Row>, logit: Text -> real): (Fused, Fused) -> bool {
    (f: Fused, g: Fused) => LogitOf(payloads, logit, f) > LogitOf(payloads, logit, g)
  }

  /** By logit, and candidates with the same logit as fusion had them. */
  ghost predicate IsOrder(order: seq<Fused>, kept: seq<Fused>, payloads: map<Fuse.Id, Row>,
    logit: Option<Text -> real>) {
    if logit.None? then order == kept
    else multiset(order) == multiset(kept) && InOrder(order, Then(ByLogit(payloads, logit.value), Ahead))
  }

  /** The candidates in the order they are returned. */
  method Order(kept: seq<Fused>, payloads: map<Fuse.Id, Row>, rerank: Option<Text -> real>)
    returns (order: seq<Fused>, reranked: bool)
    requires InOrder(kept, Ahead)
    ensures reranked <==> rerank.Some? && |kept| > 1
    ensures |order| == |kept| && forall f :: f in order <==> f in kept
    ensures IsOrder(order, kept, payloads, if reranked then rerank else None)
  {
    order, reranked := kept, rerank.Some? && |kept| > 1;
    if reranked {
      LogitsAreWeak(payloads, rerank.value);
      SortStable(kept, ByLogit(payloads, rerank.value), Ahead);
      order := Sort(kept, ByLogit(payloads, rerank.value));
      SameCandidates(kept, order);
    }
  }

  function HitOf(f: Fused, payloads: map<Fuse.Id, Row>, logit: Option<Text -> real>): Hit
    requires f.id in payloads
  {
    Hit(f.id, payloads[f.id], if logit.Some? then LogitOf(payloads, logit.value, f) else f.score, f.ranks, logit.Some?)
  }

  /** The first `topK`, each built with its payload. */
  method Report(order: seq<Fused>, payloads: map<Fuse.Id, Row>, logit: Option<Text -> real>, topK: nat)
    returns (hits: seq<Hit>)
    requires forall f :: f in order ==> f.id in payloads
    ensures |hits| == if |order| <= topK then |order| else topK
    ensures forall k :: 0 <= k < |hits| ==> hits[k] == HitOf(order[k], payloads, logit)
  {
    hits := [];
    for i := 0 to if |order| <= topK then |order| else topK
      invariant |hits| == i && forall k :: 0 <= k < i ==> hits[k] == HitOf(order[k], payloads, logit)
    {
      hits := hits + [HitOf(order[i], payloads, logit)];
    }
  }

  /** search: what comes back, for any answers of the two retrievers and any
      reranker (None when its weights are missing or it is switched off). */
  method Find(dense: seq<Fuse.Id>, sparse: seq<Fuse.Id>, vectors: map<Fuse.Id, Row>, chunks: map<Fuse.Id, Row>,
              rerank: Option<Text -> real>, topK: nat)
    returns (hits: seq<Hit>, fused: seq<Fused>, reranked: bool)
    requires forall id :: id in dense ==> id in vectors
    ensures IsTop(fused, AddAll([RankedList(Lit("dense"), dense), RankedList(Lit("sparse"), sparse)], 60), 30)
    ensures |hits| <= topK
    ensures forall h :: h in hits ==> Attributes(h, fused, dense, vectors, chunks)
    ensures (forall f :: f in fused ==> Known(f.id, dense, vectors, chunks)) ==>
      |hits| == if |fused| <= topK then |fused| else topK
    ensures var rows := Hydrated(fused, DensePayloads(dense, vectors), chunks);
      && (reranked <==> rerank.Some? && |Attributed(fused, rows)| > 1)
      && (forall f :: f in Attributed(fused, rows) <==> f in fused && Known(f.id, dense, vectors, chunks))
      && IsAnswer(hits, Attributed(fused, rows), rows, if reranked then rerank else None, topK)
    ensures forall i, j :: 0 <= i < j < |hits| ==> hits[i].id != hits[j].id
    ensures forall i, j :: 0 <= i < j < |hits| ==> BestFirst(hits[i], hits[j], reranked)
    ensures forall h :: h in hits ==> Scored(h, fused, if reranked then rerank else None)
    ensures NoneBetter(hits, fused, dense, vectors, chunks, if reranked then rerank else None)
  {
    hide AddAll, IsTop, Attributed, Hydrated, IsOrder, Ahead, HitOf, ByLogit, Attributes, InOrder, Ascends, BestFirst,
        DensePayloads, IsAnswer, Scored, NoneBetter;
    fused := ReciprocalRankFusion(Lists(dense, sparse), RRF_K, FUSE_KEEP);
    var payloads := DensePayloads(dense, vectors);
    PayloadsAre(dense, vectors);
    var full := Hydrate(fused, payloads, chunks);
    var kept := Attributed(fused, full);
    AttributedAre(fused, full);
    TopInOrder(fused, Lists(dense, sparse));
    var order;
    order, reranked := Order(kept, full, rerank);
    hits := Report(order, full, if reranked then rerank else None, topK);
    AnswerIs(order, hits, kept, full, if reranked then rerank else None, topK);
    OrderMeans(order, kept, full, if reranked then rerank else None);
    ReportedInOrder(order, hits, full, if reranked then rerank else None);
    ReportedAttributed(order, hits, full, if reranked then rerank else None, fused, dense, vectors, chunks);
    ReportedScored(order, hits, full, if reranked then rerank else None, fused);
    ReportedBest(order, hits, full, if reranked then rerank else None, fused, dense, vectors, chunks);
  }

  function DensePayloads(dense: seq<Fuse.Id>, vectors: map<Fuse.Id, Row>): map<Fuse.Id, Row>
    requires forall id :: id in dense ==> id in vectors
  {
    map id | id in dense :: vectors[id]
  }

  lemma PayloadsAre(dense: seq<Fuse.Id>, vectors: map<Fuse.Id, Row>)
    requires forall id :: id in dense ==> id in vectors
    ensures forall id :: id in DensePayloads(dense, vectors) <==> id in dense
    ensures forall id :: id in dense ==> DensePayloads(dense, vectors)[id] == vectors[id]
  {
  }

  /** The hits are the first `topK` of the candidates in their final order, each
      with its row and with the score that put it there. */
  ghost predicate IsAnswer(hits: seq<Hit>, kept: seq<Fused>, rows: map<Fuse.Id, Row>, logit: Option<Text -> real>,
    topK: nat) {
    exists order: seq<Fused> ::
      && IsOrder(order, kept, rows, logit)
      && |hits| == (if |kept| <= topK then |kept| else topK) <= |order|
      && forall k :: 0 <= k < |hits| ==> order[k].id in rows && hits[k] == HitOf(order[k], rows, logit)
  }

  lemma AnswerIs(order: seq<Fused>, hits: seq<Hit>, kept: seq<Fused>, rows: map<Fuse.Id, Row>,
    logit: Option<Text -> real>, topK: nat)
    requires IsOrder(order, kept, rows, logit)
    requires |hits| == (if |kept| <= topK then |kept| else topK) <= |order|
    requires forall k :: 0 <= k < |hits| ==> order[k].id in rows && hits[k] == HitOf(order[k], rows, logit)
    ensures IsAnswer(hits, kept, rows, logit, topK)
  {
  }

  /** A hit names a file; it is a fused candidate with its ranks, and its row is the
      vector's payload if the dense list had it, the chunk's row if not. */
  ghost predicate Attributes(h: Hit, fused: seq<Fused>, dense: seq<Fuse.Id>, vectors: map<Fuse.Id, Row>,
    chunks: map<Fuse.Id, Row>) {
    && h.row.filename != []
    && (exists f :: f in fused && f.id == h.id && f.ranks == h.ranks)
    && (if h.id in dense then h.id in vectors && h.row == vectors[h.id] else h.id in chunks && h.row == chunks[h.id])
  }

  predicate BestFirst(a: Hit, b: Hit, reranked: bool) {
    if reranked then b.score <= a.score else a.score > b.score || (a.score == b.score && Less(a.id, b.id))
  }

  /** The score of a hit: what the reranker says of its own passage, or else what
      fusion gave its id. */
  ghost predicate Scored(h: Hit, fused: seq<Fused>, logit: Option<Text -> real>) {
    && h.reranked == logit.Some?
    && (if logit.Some? then h.score == logit.value(h.row.text)
        else exists f :: f in fused && f.id == h.id && f.ranks == h.ranks && f.score == h.score)
  }

  /** Of the candidates that name a file, the ones not among the hits are no better
      than any hit. */
  ghost predicate NoneBetter(hits: seq<Hit>, fused: seq<Fused>, dense: seq<Fuse.Id>, vectors: map<Fuse.Id, Row>,
    chunks: map<Fuse.Id, Row>, logit: Option<Text -> real>) {
    forall f, h :: f in fused && Known(f.id, dense, vectors, chunks) && h in hits ==>
      (exists g :: g in hits && g.id == f.id) || NotAbove(f, h, dense, vectors, chunks, logit)
  }

  ghost predicate NotAbove(f: Fused, h: Hit, dense: seq<Fuse.Id>, vectors: map<Fuse.Id, Row>,
    chunks: map<Fuse.Id, Row>, logit: Option<Text -> real>)
    requires Known(f.id, dense, vectors, chunks)
  {
    if logit.Some?
    then logit.value((if f.id in dense then vectors[f.id] else chunks[f.id]).text) <= h.score
    else f.score < h.score || (f.score == h.score && Less(h.id, f.id))
  }

  lemma ReportedScored(order: seq<Fused>, hits: seq<Hit>, rows: map<Fuse.Id, Row>, logit: Option<Text -> real>,
    fused: seq<Fused>)
    requires |hits| <= |order| && forall f :: f in order ==> f in fused && f.id in rows
    requires forall k :: 0 <= k < |hits| ==> hits[k] == HitOf(order[k], rows, logit)
    ensures forall h :: h in hits ==> Scored(h, fused, logit)
  {
    forall h | h in hits ensures Scored(h, fused, logit) {
      var k :| 0 <= k < |hits| && hits[k] == h;
      assert order[k] in fused;
    }
  }

  lemma ReportedBest(order: seq<Fused>, hits: seq<Hit>, rows: map<Fuse.Id, Row>, logit: Option<Text -> real>,
    fused: seq<Fused>, dense: seq<Fuse.Id>, vectors: map<Fuse.Id, Row>, chunks: map<Fuse.Id, Row>)
    requires |hits| <= |order|
    requires forall f :: f in order <==> f in fused && Known(f.id, dense, vectors, chunks)
    requires forall f :: f in order ==> f.id in rows
    requires forall k :: 0 <= k < |hits| ==> hits[k] == HitOf(order[k], rows, logit)
    requires forall id :: id in dense ==> id in vectors && id in rows && rows[id] == vectors[id]
    requires forall id :: id in rows && id !in dense ==> id in chunks && rows[id] == chunks[id]
    requires if logit.Some? then Ascends(order, ByLogit(rows, logit.value)) else InOrder(order, Ahead)
    ensures NoneBetter(hits, fused, dense, vectors, chunks, logit)
  {
    hide Known;
    forall f, h | f in fused && Known(f.id, dense, vectors, chunks) && h in hits
      ensures (exists g :: g in hits && g.id == f.id) || NotAbove(f, h, dense, vectors, chunks, logit)
    {
      var j :| 0 <= j < |order| && order[j] == f;
      var i :| 0 <= i < |hits| && hits[i] == h;
      if j < |hits| {
        assert hits[j] in hits && hits[j].id == f.id;
      } else if logit.Some? {
        assert !ByLogit(rows, logit.value)(order[j], order[i]);
      } else {
        assert Ahead(order[i], order[j]);
      }
    }
  }

  lemma ReportedInOrder(order: seq<Fused>, hits: seq<Hit>, payloads: map<Fuse.Id, Row>, logit: Option<Text -> real>)
    requires |hits| <= |order| && forall f :: f in order ==> f.id in payloads
    requires forall k :: 0 <= k < |hits| ==> hits[k] == HitOf(order[k], payloads, logit)
    requires if logit.Some? then Ascends(order, ByLogit(payloads, logit.value)) else InOrder(order, Ahead)
    requires forall i, j :: 0 <= i < j < |order| ==> order[i].id != order[j].id
    ensures forall i, j :: 0 <= i < j < |hits| ==> BestFirst(hits[i], hits[j], logit.Some?) && hits[i].id != hits[j].id
  {
    forall i, j | 0 <= i < j < |hits| ensures BestFirst(hits[i], hits[j], logit.Some?) {
      if logit.Some? { assert !ByLogit(payloads, logit.value)(order[j], order[i]); }
        else { assert Ahead(order[i], order[j]); }
    }
  }

  lemma OrderMeans(order: seq<Fused>, kept: seq<Fused>, payloads: map<Fuse.Id, Row>, logit: Option<Text -> real>)
    requires IsOrder(order, kept, payloads, logit) && InOrder(kept, Ahead)
    requires forall f, g :: f in kept && g in kept && f.id == g.id ==> f == g
    ensures if logit.Some? then Ascends(order, ByLogit(payloads, logit.value)) else InOrder(order, Ahead)
    ensures forall i, j :: 0 <= i < j < |order| ==> order[i].id != order[j].id
  {
    SameCandidates(kept, order);
    var rule := if logit.Some? then Then(ByLogit(payloads, logit.value), Ahead) else Ahead;
    forall i, j | 0 <= i < j < |order| ensures order[i].id != order[j].id {
      assert rule(order[i], order[j]);
      assert order[i] in kept && order[j] in kept;
      SelfNever(order[i]);
    }
    if logit.Some? {
      forall i, j | 0 <= i < j < |order| ensures !ByLogit(payloads, logit.value)(order[j], order[i]) {
        assert rule(order[i], order[j]);
      }
    }
  }

  lemma ReportedAttributed(order: seq<Fused>, hits: seq<Hit>, full: map<Fuse.Id, Row>, logit: Option<Text -> real>,
    fused: seq<Fused>,
                           dense: seq<Fuse.Id>, vectors: map<Fuse.Id, Row>, chunks: map<Fuse.Id, Row>)
    requires |hits| <= |order| && forall f :: f in order ==> f in fused && f.id in full && full[f.id].filename != []
    requires forall k :: 0 <= k < |hits| ==> hits[k] == HitOf(order[k], full, logit)
    requires forall id :: id in dense ==> id in vectors && id in full && full[id] == vectors[id]
    requires forall id :: id in full && id !in dense ==> id in chunks && full[id] == chunks[id]
    ensures forall h :: h in hits ==> Attributes(h, fused, dense, vectors, chunks)
  {
    forall h | h in hits ensures Attributes(h, fused, dense, vectors, chunks) {
      var k :| 0 <= k < |hits| && hits[k] == h;
      assert order[k] in fused && order[k].id == h.id;
    }
  }

  /** An id whose payload names a file. */
  predicate Known(id: Fuse.Id, dense: seq<Fuse.Id>, vectors: map<Fuse.Id, Row>, chunks: map<Fuse.Id, Row>) {
    if id in dense then id in vectors && vectors[id].filename != [] else id in chunks && chunks[id].filename != []
  }

  lemma TopInOrder(fused: seq<Fused>, lists: seq<RankedList>)
    requires IsTop(fused, AddAll(lists, RRF_K), FUSE_KEEP)
    ensures InOrder(fused, Ahead)
    ensures forall f, g :: f in fused && g in fused && f.id == g.id ==> f == g
  {
    TopMeans(fused, lists, RRF_K, FUSE_KEEP);
  }

  lemma LogitsAreWeak(payloads: map<Fuse.Id, Row>, logit: Text -> real)
    ensures Weak(ByLogit(payloads, logit))
  {
  }

  lemma SameCandidates(a: seq<Fused>, b: seq<Fused>)
    requires multiset(a) == multiset(b)
    ensures |a| == |b| && forall f :: f in a <==> f in b
  {
    assert |multiset(a)| == |a| && |multiset(b)| == |b|;
    assert forall f :: f in a <==> f in multiset(a);
    assert forall f :: f in b <==> f in multiset(b);
  }

  /** When no document has drifted and the sparse index is in step, every hit is a
      live chunk with the very row the tables hold, and nothing fused is dropped. */
  lemma HitsAreLive(c: map<Fuse.Id, Row>, docs: map<DocId, Document>, v: map<Fuse.Id, Row>, s: map<Fuse.Id, Text>,
                    dense: seq<Fuse.Id>, sparse: seq<Fuse.Id>, fused: seq<Fused>)
    requires Consistent(c, docs, v, {}) && s == Texts(c)
    requires (forall id :: id in dense ==> id in v) && forall id :: id in sparse ==> id in s
    requires IsTop(fused, AddAll(Lists(dense, sparse), RRF_K), FUSE_KEEP)
    requires forall id :: id in c ==> c[id].filename != []
    ensures v == c
    ensures forall f :: f in fused ==> f.id in c && Known(f.id, dense, v, c)
  {
    DenseHitsAreLive(c, docs, v, {});
    TopMeans(fused, Lists(dense, sparse), RRF_K, FUSE_KEEP);
    forall f | f in fused ensures f.id in c && Known(f.id, dense, v, c) {
      assert Found(Lists(dense, sparse), f.id);
      assert f.id in dense || f.id in sparse;
    }
  }
}
