/** Three stores that must agree (ragsvc/corpus.py over ragdb.py, index/bm25.py and
    index/qdrant_store.py): the SQL tables, the vectors and the sparse index, under
    any failure of the dense side. */
module Corpus {
  import opened Codes

  type Id = Text
  type DocId = Text

  /** A row of `chunks`, and the payload a vector carries. */
  datatype Row = Row(doc: DocId, index: nat, filename: Text, page: int, section: Text, text: Text)

  datatype NewChunk = NewChunk(id: Id, index: nat, filename: Text, page: int, section: Text, text: Text)

  datatype Document = Document(filename: Text, path: Text, chunkCount: nat, indexed: bool)

  /** What ingest_document makes of a file, or that it raises. */
  datatype Parsed = Parsed(filename: Text, chunks: seq<NewChunk>) | Unreadable

  /** One file of a directory, with what the world makes of it. */
  datatype File = File(path: Text, doc: DocId, parsed: Parsed, fate: Fate)

  datatype Request =
    | Load(files: seq<File>)
    | Ingest(file: File)
    | Redo(doc: DocId, present: bool, parsed: Parsed, fate: Fate)
    | Drop(doc: DocId, refusal: DeleteFate)

  // --- what the dense side may do ----------------------------------------------------------

  /** A delete that raises may have happened all the same. */
  datatype DeleteFate = Deleted | Refused(gone: bool)

  /** A batch that raises may have been written in part. */
  datatype BatchFate = Written | Lost(kept: set<Id>)

  datatype Fate = Fate(embeds: bool, delete: DeleteFate, batch: nat -> BatchFate)

  const BATCH := 256

  // --- maps ------------------------------------------------------------------------------------

  /** The entries that belong to one document, and the others. */
  function Of(m: map<Id, Row>, doc: DocId): map<Id, Row> { map id | id in m && m[id].doc == doc :: m[id] }

  function Without(m: map<Id, Row>, doc: DocId): map<Id, Row> { map id | id in m && m[id].doc != doc :: m[id] }

  function RowOf(doc: DocId, c: NewChunk): Row { Row(doc, c.index, c.filename, c.page, c.section, c.text) }

  function Rows(doc: DocId, chunks: seq<NewChunk>): map<Id, Row> {
    if chunks == [] then map[]
    else Rows(doc, chunks[..|chunks| - 1])[chunks[|chunks| - 1].id := RowOf(doc, chunks[|chunks| - 1])]
  }

  /** Under the chunk's id stand the document and the chunk's own fields. */
  predicate Holds(m: map<Id, Row>, doc: DocId, c: NewChunk) {
    && c.id in m && m[c.id].doc == doc && m[c.id].index == c.index && m[c.id].filename == c.filename
    && m[c.id].page == c.page && m[c.id].section == c.section && m[c.id].text == c.text
  }

  predicate HoldsAll(m: map<Id, Row>, doc: DocId, chunks: seq<NewChunk>) {
    forall i :: 0 <= i < |chunks| ==> Holds(m, doc, chunks[i])
  }

  /** A document's rows are these chunks and no others, and no other row has changed. */
  ghost predicate Replaced(before: map<Id, Row>, after: map<Id, Row>, doc: DocId, chunks: seq<NewChunk>) {
    && HoldsAll(after, doc, chunks)
    && (forall id :: id in after && after[id].doc == doc ==> exists i :: 0 <= i < |chunks| && chunks[i].id == id)
    && (forall id :: id in before && before[id].doc != doc ==> id in after && after[id] == before[id])
    && (forall id :: id in after && after[id].doc != doc ==> id in before && before[id] == after[id])
  }

  lemma {:induction false} RowsHold(doc: DocId, chunks: seq<NewChunk>)
    requires FreshIds(chunks, {})
    ensures HoldsAll(Rows(doc, chunks), doc, chunks)
  {
    if chunks != [] {
      var init, last := chunks[..|chunks| - 1], chunks[|chunks| - 1];
      RowsHold(doc, init);
      forall i | 0 <= i < |chunks| ensures Holds(Rows(doc, chunks), doc, chunks[i]) {
        if i < |init| { assert Holds(Rows(doc, init), doc, init[i]) && chunks[i].id != last.id; }
      }
    }
  }

  lemma RowsReplaced(before: map<Id, Row>, doc: DocId, chunks: seq<NewChunk>)
    requires FreshIds(chunks, before.Keys)
    ensures Replaced(before, Without(before, doc) + Rows(doc, chunks), doc, chunks)
  {
    hide Rows;
    RowsHold(doc, chunks);
    RowsKeys(doc, chunks);
    RowsApart(doc, chunks, before);
    hide FreshIds;
    PutIn(before, Rows(doc, chunks), doc, chunks);
  }

  lemma PutIn(before: map<Id, Row>, rows: map<Id, Row>, doc: DocId, chunks: seq<NewChunk>)
    requires HoldsAll(rows, doc, chunks) && forall id :: id in rows ==> rows[id].doc == doc && id !in before
    requires forall id :: id in rows ==> exists i :: 0 <= i < |chunks| && chunks[i].id == id
    ensures Replaced(before, Without(before, doc) + rows, doc, chunks)
  {
    var after := Without(before, doc) + rows;
    forall i | 0 <= i < |chunks| ensures Holds(after, doc, chunks[i]) { assert Holds(rows, doc, chunks[i]); }
    OnlyNew(before, rows, doc);
    hide Holds;
  }

  lemma OnlyNew(before: map<Id, Row>, rows: map<Id, Row>, doc: DocId)
    requires forall id :: id in rows ==> rows[id].doc == doc && id !in before
    ensures var after := Without(before, doc) + rows;
      && (forall id :: id in after && after[id].doc == doc ==> id in rows)
      && (forall id :: id in before && before[id].doc != doc ==> id in after && after[id] == before[id])
      && (forall id :: id in after && after[id].doc != doc ==> id in before && before[id] == after[id])
  {
  }

  lemma IfFresh(before: map<Id, Row>, doc: DocId, chunks: seq<NewChunk>)
    ensures FreshIds(chunks, before.Keys) ==> Replaced(before, Without(before, doc) + Rows(doc, chunks), doc, chunks)
  {
    if FreshIds(chunks, before.Keys) { RowsReplaced(before, doc, chunks); }
  }

  lemma NothingAdded(before: map<Id, Row>, doc: DocId)
    ensures Replaced(before, Without(before, doc), doc, [])
  {
  }

  lemma OfHolds(m: map<Id, Row>, doc: DocId, chunks: seq<NewChunk>)
    requires Of(m, doc) == Rows(doc, chunks) && FreshIds(chunks, {})
    ensures HoldsAll(m, doc, chunks)
    ensures forall id :: id in m && m[id].doc == doc ==> exists i :: 0 <= i < |chunks| && chunks[i].id == id
  {
    RowsHold(doc, chunks);
    RowsKeys(doc, chunks);
    hide Rows, FreshIds;
    forall i | 0 <= i < |chunks| ensures Holds(m, doc, chunks[i]) { assert Holds(Of(m, doc), doc, chunks[i]); }
    assert forall id :: id in m && m[id].doc == doc ==> id in Of(m, doc);
  }

  /** uuid4 never repeats: new ids are distinct and in no store. */
  ghost predicate FreshIds(chunks: seq<NewChunk>, used: set<Id>) {
    && (forall i :: 0 <= i < |chunks| ==> chunks[i].id !in used)
    && (forall i, j :: 0 <= i < j < |chunks| ==> chunks[i].id != chunks[j].id)
  }

  lemma {:induction false} RowsKeys(doc: DocId, chunks: seq<NewChunk>)
    ensures forall id :: id in Rows(doc, chunks) <==> exists i :: 0 <= i < |chunks| && chunks[i].id == id
    ensures forall id :: id in Rows(doc, chunks) ==> Rows(doc, chunks)[id].doc == doc
  {
    if chunks != [] {
      var init, last := chunks[..|chunks| - 1], chunks[|chunks| - 1];
      RowsKeys(doc, init);
      forall id ensures id in Rows(doc, chunks) <==> exists i :: 0 <= i < |chunks| && chunks[i].id == id {
        if id in Rows(doc, init) {
          var i :| 0 <= i < |init| && init[i].id == id;
          assert chunks[i].id == id;
        }
        if i :| 0 <= i < |chunks| && chunks[i].id == id {
          if i < |init| { assert init[i].id == id; }
        }
        assert chunks[|chunks| - 1].id == last.id;
      }
    }
  }

  lemma {:induction false} RowsCount(doc: DocId, chunks: seq<NewChunk>)
    requires FreshIds(chunks, {})
    ensures |Rows(doc, chunks)| == |chunks|
  {
    if chunks != [] {
      var init, last := chunks[..|chunks| - 1], chunks[|chunks| - 1];
      RowsCount(doc, init);
      RowsKeys(doc, init);
      assert last.id !in Rows(doc, init);
    }
  }

  lemma RowsSnoc(doc: DocId, chunks: seq<NewChunk>, i: nat)
    requires i < |chunks|
    ensures Rows(doc, chunks[..i + 1]) == Rows(doc, chunks[..i])[chunks[i].id := RowOf(doc, chunks[i])]
  {
    assert chunks[..i + 1][..i] == chunks[..i];
  }

  lemma RowsApart(doc: DocId, chunks: seq<NewChunk>, m: map<Id, Row>)
    requires FreshIds(chunks, m.Keys)
    ensures forall id :: id in Rows(doc, chunks) ==> id !in m
  {
    RowsKeys(doc, chunks);
  }

  /** Replacing one document's entries. */
  lemma ReplaceOne(m: map<Id, Row>, doc: DocId, rows: map<Id, Row>)
    requires (forall id :: id in rows ==> rows[id].doc == doc) && forall id :: id in rows ==> id !in m
    ensures Of(Without(m, doc) + rows, doc) == rows
    ensures forall d :: d != doc ==> Of(Without(m, doc) + rows, d) == Of(m, d)
  {
  }

  function Texts(m: map<Id, Row>): map<Id, Text> { map id | id in m :: m[id].text }

  /** Tables consistent, every count exact, every row marked indexed backed by
      exactly its own vectors, and vectors trustworthy outside `drifted`. */
  ghost predicate Consistent(chunks: map<Id, Row>, documents: map<DocId, Document>, vectors: map<Id, Row>,
    drifted: set<DocId>) {
    && (forall id :: id in chunks ==> chunks[id].doc in documents)
    && (forall d :: d in documents ==> documents[d].chunkCount == |Of(chunks, d)|)
    && (forall d :: d in documents && documents[d].indexed ==> d !in drifted)
    && (forall d :: d !in drifted ==> Of(vectors, d) == Of(chunks, d))
  }

  lemma Ingested(c: map<Id, Row>, docs: map<DocId, Document>, v: map<Id, Row>, drifted: set<DocId>,
                 doc: DocId, added: seq<NewChunk>, row: Document, after: map<Id, Row>, heals: bool)
    requires Consistent(c, docs, v, drifted)
    requires FreshIds(added, c.Keys + v.Keys) && row.chunkCount == |added|
    requires forall d :: d != doc ==> Of(after, d) == Of(v, d)
    requires heals ==> Of(after, doc) == Rows(doc, added)
    requires row.indexed ==> heals
    ensures Consistent(Without(c, doc) + Rows(doc, added), docs[doc := row], after, if heals
      then drifted - {doc} else drifted + {doc})
  {
    hide Of, Rows, Without, FreshIds, Consistent;
    FreshIn(added, c.Keys, v.Keys);
    RowsKeys(doc, added);
    RowsCount(doc, added);
    RowsApart(doc, added, c);
    ReplaceOne(c, doc, Rows(doc, added));
    InReplaced(c, doc, Rows(doc, added));
    StillConsistent(c, docs, v, drifted, doc, row, Without(c, doc) + Rows(doc, added), after, heals);
  }

  /** One document changes in both stores, the others do not. */
  lemma StillConsistent(c: map<Id, Row>, docs: map<DocId, Document>, v: map<Id, Row>, drifted: set<DocId>,
                        doc: DocId, row: Document, c': map<Id, Row>, v': map<Id, Row>, heals: bool)
    requires Consistent(c, docs, v, drifted)
    requires forall d :: d != doc ==> Of(c', d) == Of(c, d) && Of(v', d) == Of(v, d)
    requires forall id :: id in c' ==> c'[id].doc == doc || (id in c && c'[id].doc == c[id].doc)
    requires row.chunkCount == |Of(c', doc)| && (heals ==> Of(v', doc) == Of(c', doc)) && (row.indexed ==> heals)
    ensures Consistent(c', docs[doc := row], v', if heals then drifted - {doc} else drifted + {doc})
  {
    hide Of;
  }

  lemma FreshIn(added: seq<NewChunk>, a: set<Id>, b: set<Id>)
    requires FreshIds(added, a + b)
    ensures FreshIds(added, a) && FreshIds(added, b) && FreshIds(added, {})
  {
  }

  lemma InReplaced(c: map<Id, Row>, doc: DocId, rows: map<Id, Row>)
    requires forall id :: id in rows ==> rows[id].doc == doc
    ensures forall id :: id in Without(c, doc) + rows ==>
      (Without(c, doc) + rows)[id].doc == doc || (id in c && (Without(c, doc) + rows)[id].doc == c[id].doc)
  {
  }

  // --- the service ---------------------------------------------------------------------------------

  class Service {
    var chunks: map<Id, Row>
    var documents: map<DocId, Document>
    var vectors: map<Id, Row>
    var sparse: map<Id, Text>
    /** Documents whose vectors may differ from their chunks. */
    ghost var drifted: set<DocId>

    ghost predicate Sound()
      reads this`chunks, this`documents, this`vectors, this`drifted
    {
      Consistent(chunks, documents, vectors, drifted)
    }

    ghost predicate Synced()
      reads this`chunks, this`sparse
    {
      sparse == Texts(chunks)
    }

    /** Synced, or so once: what the sparse index holds is still there. */
    ghost predicate Lagging()
      reads this`chunks, this`sparse
    {
      Behind(sparse, chunks)
    }

    constructor ()
      ensures Sound() && Synced() && drifted == {} && chunks == map[] && documents == map[] && vectors == map[]
    {
      chunks, documents, vectors, sparse := map[], map[], map[], map[];
      drifted := {};
    }

    /** bm25.rebuild. */
    method Rebuild()
      modifies this`sparse
      ensures Synced()
      ensures forall id :: id in sparse <==> id in chunks
      ensures forall id :: id in sparse ==> sparse[id] == chunks[id].text
    {
      sparse := Texts(chunks);
    }

    /** ragdb.replace_chunks: delete, then insert one row at a time. */
    method ReplaceChunks(doc: DocId, added: seq<NewChunk>)
      modifies this`chunks
      ensures chunks == Without(old(chunks), doc) + Rows(doc, added)
      ensures FreshIds(added, old(chunks).Keys) ==> Replaced(old(chunks), chunks, doc, added)
    {
      hide Rows, RowOf, Without, FreshIds, Replaced;
      IfFresh(chunks, doc, added);
      chunks := Without(chunks, doc);
      NoRows(doc, chunks);
      for i := 0 to |added|
        invariant chunks == Without(old(chunks), doc) + Rows(doc, added[..i])
      {
        PutOne(Without(old(chunks), doc), doc, added[..i], added[i]);
        assert added[..i] + [added[i]] == added[..i + 1];
        chunks := chunks[added[i].id := RowOf(doc, added[i])];
      }
      assert added[..|added|] == added;
    }

    /** VectorStore.delete_document. */
    method DeleteVectors(doc: DocId, fate: DeleteFate) returns (ok: bool)
      modifies this`vectors
      ensures ok == fate.Deleted?
      ensures vectors == if fate.Deleted? || fate.gone then Without(old(vectors), doc) else old(vectors)
    {
      match fate
      case Deleted => vectors := Without(vectors, doc); ok := true;
      case Refused(gone) =>
        if gone { vectors := Without(vectors, doc); }
        ok := false;
    }

    /** VectorStore.upsert, in batches of 256; `stored` is what got through. */
    method Upsert(doc: DocId, added: seq<NewChunk>, fate: nat -> BatchFate)
      returns (ok: bool, ghost stored: seq<NewChunk>)
      modifies this`vectors
      ensures vectors == old(vectors) + Rows(doc, stored)
      ensures forall c :: c in stored ==> c in added
      ensures ok ==> stored == added
      ensures ok <==> forall b: nat :: b * 256 < |added| ==> fate(b).Written?
    {
      hide Rows, Got, RowOf;
      var start, number := 0, 0;
      stored := [];
      NoRows(doc, vectors);
      while start < |added|
        invariant 0 <= start <= |added| && stored == added[..start]
        invariant start == number * BATCH || (start == |added| <= number * BATCH)
        invariant forall b: nat :: b < number ==> fate(b).Written?
        invariant vectors == old(vectors) + Rows(doc, stored)
      {
        var end := if start + BATCH < |added| then start + BATCH else |added|;
        var batch, outcome := added[start..end], fate(number);
        var kept := if outcome.Written? then None else Some(outcome.kept);
        WriteBatch(doc, batch, kept);
        RowsAppend(doc, stored, Got(batch, kept));
        Regroup(old(vectors), Rows(doc, stored), Rows(doc, Got(batch, kept)));
        GotFrom(batch, kept);
        stored := stored + Got(batch, kept);
        assert forall c :: c in batch ==> c in added;
        if outcome.Lost? { return false, stored; }
        assert added[..start] + batch == added[..end];
        start, number := end, number + 1;
      }
      assert added[..|added|] == added;
      ok := true;
    }

    /** One request. */
    method WriteBatch(doc: DocId, batch: seq<NewChunk>, kept: Option<set<Id>>)
      modifies this`vectors
      ensures vectors == old(vectors) + Rows(doc, Got(batch, kept))
    {
      hide Rows, Got, RowOf;
      NothingGot(kept);
      NoRows(doc, vectors);
      for i := 0 to |batch|
        invariant vectors == old(vectors) + Rows(doc, Got(batch[..i], kept))
      {
        GotSnoc(batch, i, kept);
        PutOne(old(vectors), doc, Got(batch[..i], kept), batch[i]);
        if kept.None? || batch[i].id in kept.value { vectors := vectors[batch[i].id := RowOf(doc, batch[i])]; }
        else { assert Got(batch[..i], kept) + [] == Got(batch[..i], kept); }
      }
      assert batch[..|batch|] == batch;
    }

    /** The try block of ingest_file: encode, delete, upsert. */
    method Embed(doc: DocId, added: seq<NewChunk>, fate: Fate) returns (ok: bool)
      requires FreshIds(added, vectors.Keys)
      modifies this`vectors
      ensures ok ==> Of(vectors, doc) == Rows(doc, added) && HoldsAll(vectors, doc, added)
      ensures ok <==> Goes(fate, |added|)
      ensures vectors.Keys <= old(vectors).Keys + IdsOf(added)
      ensures forall d :: d != doc ==> Of(vectors, d) == Of(old(vectors), d)
    {
      hide Rows, FreshIds;
      if !fate.embeds { return false; }
      var deleted := DeleteVectors(doc, fate.delete);
      OfWithout(old(vectors), doc);
      if !deleted { return false; }
      ghost var stored;
      ok, stored := Upsert(doc, added, fate.batch);
      StoredApart(doc, added, stored, old(vectors));
      ReplaceOne(old(vectors), doc, Rows(doc, stored));
      StoredIds(doc, added, stored);
      if ok { EmbeddedHolds(vectors, doc, added, old(vectors).Keys); }
    }

    // --- the operations ---

    /** ingest_file. A file that cannot be read raises before any store is touched. */
    method IngestFile(path: Text, doc: DocId, parsed: Parsed, fate: Fate, rebuildSparse: bool) returns (ok: bool)
      requires Sound()
      requires parsed.Parsed? ==> FreshIds(parsed.chunks, chunks.Keys + vectors.Keys)
      modifies this
      ensures Sound() && ok == parsed.Parsed?
      ensures !ok ==> chunks == old(chunks) && documents == old(documents) && vectors == old(vectors)
                      && sparse == old(sparse) && drifted == old(drifted)
      ensures ok ==> chunks == Without(old(chunks), doc) + Rows(doc, parsed.chunks)
      ensures ok && rebuildSparse ==> Synced()
      ensures !rebuildSparse ==> sparse == old(sparse)
      ensures ok ==> chunks.Keys + vectors.Keys <= old(chunks).Keys + old(vectors).Keys + IdsOf(parsed.chunks)
      ensures ok ==> doc in documents && documents.Keys == old(documents).Keys + {doc}
      ensures ok ==> Replaced(old(chunks), chunks, doc, parsed.chunks)
      ensures ok ==> Registered(documents[doc], path, parsed)
      ensures ok ==> forall d :: d in old(documents) && d != doc ==> documents[d] == old(documents)[d]
      ensures ok && documents[doc].indexed ==> HoldsAll(vectors, doc, parsed.chunks)
      ensures ok && rebuildSparse ==> Worded(sparse, parsed.chunks)
      ensures ok ==> documents[doc].indexed == (parsed.chunks != [] && Goes(fate, |parsed.chunks|))
      ensures ok ==>
        drifted == if Heals(old(vectors), doc, parsed.chunks, fate) then old(drifted) - {doc} else old(drifted) + {doc}
    {
      hide Consistent, Rows, Without, Of, FreshIds, Texts, Replaced, HoldsAll, Worded;
      if parsed.Unreadable? { return false; }
      FreshIn(parsed.chunks, chunks.Keys, vectors.Keys);
      NoChunks(doc);
      StoredIds(doc, parsed.chunks, parsed.chunks);
      KeysWithout(chunks, doc);
      ReplaceChunks(doc, parsed.chunks);
      var indexed := false;
      if parsed.chunks != [] {
        indexed := Embed(doc, parsed.chunks, fate);
      }
      Ingested(old(chunks), documents, old(vectors), drifted, doc, parsed.chunks,
               Document(parsed.filename, path, |parsed.chunks|, indexed), vectors,
                 Heals(old(vectors), doc, parsed.chunks, fate));
      documents := documents[doc := Document(parsed.filename, path, |parsed.chunks|, indexed)];
      drifted := if Heals(old(vectors), doc, parsed.chunks, fate) then drifted - {doc} else drifted + {doc};
      if rebuildSparse {
        Rebuild();
        HeldWords(old(chunks), chunks, sparse, doc, parsed.chunks);
      }
      ok := true;
    }

    /** One new file of a directory. */
    method LoadOne(f: File) returns (ok: bool)
      requires Sound() && f.doc !in documents
      requires f.parsed.Parsed? ==> FreshIds(f.parsed.chunks, chunks.Keys + vectors.Keys)
      modifies this
      ensures Sound() && sparse == old(sparse) && ok == f.parsed.Parsed?
      ensures !ok ==> chunks == old(chunks) && documents == old(documents)
      ensures forall id :: id in old(chunks) ==> id in chunks && chunks[id] == old(chunks)[id]
      ensures chunks.Keys == old(chunks).Keys + (if ok then IdsOf(f.parsed.chunks) else {})
      ensures vectors.Keys <= old(chunks).Keys + old(vectors).Keys + (if ok then IdsOf(f.parsed.chunks) else {})
      ensures documents.Keys == old(documents).Keys + (if ok then {f.doc} else {})
      ensures ok ==> FileStands(f, chunks, documents)
      ensures forall d :: d in old(documents) ==> documents[d] == old(documents)[d]
      ensures old(drifted) == {} && SmoothFile(f) ==> drifted == {}
    {
      hide Consistent, Rows, Without, Of, Texts, Goes, Heals, SmoothFile, FreshIds, IdsOf;
      NewDocument(chunks, documents, vectors, drifted, f.doc);
      if f.parsed.Parsed? {
        AddedKeys(chunks, f.doc, f.parsed.chunks);
        OldKept(chunks, f.doc, f.parsed.chunks, vectors.Keys);
        if drifted == {} && SmoothFile(f) { SmoothHeals(f, vectors); }
      }
      ok := IngestFile(f.path, f.doc, f.parsed, f.fate, false);
    }

    /** The loop of ingest_directory: every file without touching the sparse index;
        one that cannot be read raises out of it. */
    method LoadFiles(files: seq<File>) returns (loaded: nat)
      requires Sound() && FreshFiles(files, chunks.Keys + vectors.Keys, documents.Keys)
      modifies this
      ensures Sound() && sparse == old(sparse) && loaded <= |files|
      ensures forall i :: 0 <= i < loaded ==> files[i].parsed.Parsed?
      ensures loaded < |files| ==> files[loaded].parsed.Unreadable?
      ensures LoadedSoFar(files, loaded, old(chunks), old(vectors), old(documents), chunks, vectors, documents)
      ensures FilesStand(files, loaded, chunks, documents) && Kept(old(documents), documents)
      ensures old(drifted) == {} && (forall i :: 0 <= i < |files| ==> SmoothFile(files[i])) ==> drifted == {}
    {
      hide Consistent, FreshIds, FreshFiles, SmoothFile, AllIds, DocsOf, Texts, Behind, LoadedSoFar, FileStands;
      NoneLoaded(files, chunks, vectors, documents);
      loaded := 0;
      while loaded < |files|
        invariant loaded <= |files| && Sound() && sparse == old(sparse)
        invariant forall k :: 0 <= k < loaded ==> files[k].parsed.Parsed?
        invariant LoadedSoFar(files, loaded, old(chunks), old(vectors), old(documents), chunks, vectors, documents)
        invariant FilesStand(files, loaded, chunks, documents) && Kept(old(documents), documents)
        invariant old(drifted) == {} && (forall k :: 0 <= k < |files| ==> SmoothFile(files[k])) ==> drifted == {}
      {
        ghost var c, v, d := chunks, vectors, documents;
        BeforeFile(files, loaded, old(chunks), old(vectors), old(documents), c, v, d);
        var read := LoadOne(files[loaded]);
        if !read {
          StillLoaded(files, loaded, old(chunks), old(vectors), old(documents), c, v, d, chunks, vectors, documents);
          return;
        }
        FilesStandOn(files, loaded, c, d, chunks, documents);
        AfterFile(files, loaded, old(chunks), old(vectors), old(documents), c, v, d, chunks, vectors, documents);
        loaded := loaded + 1;
      }
    }

    /** ingest_directory: all of the files, then one rebuild, unless the loop was
        left early. */
    method IngestDirectory(files: seq<File>) returns (ok: bool, ghost loaded: nat)
      requires Sound() && FreshFiles(files, chunks.Keys + vectors.Keys, documents.Keys)
      modifies this
      ensures Sound()
      ensures ok <==> forall i :: 0 <= i < |files| ==> files[i].parsed.Parsed?
      ensures ok ==> Synced()
      ensures !ok ==> sparse == old(sparse)
      ensures loaded <= |files| && (forall i :: 0 <= i < loaded ==> files[i].parsed.Parsed?)
      ensures (ok <==> loaded == |files|) && (!ok ==> files[loaded].parsed.Unreadable?)
      ensures FilesStand(files, loaded, chunks, documents) && Kept(old(documents), documents)
      ensures forall d :: KeepsRows(old(chunks), chunks, d)
      ensures old(chunks).Keys + AllIds(files[..loaded]) == chunks.Keys
      ensures !ok && old(Synced()) ==> (Synced() <==> AllIds(files[..loaded]) == {})
      ensures chunks.Keys + vectors.Keys <= old(chunks).Keys + old(vectors).Keys + AllIds(files)
      ensures documents.Keys <= old(documents).Keys + DocsOf(files)
      ensures documents.Keys == old(documents).Keys + DocsOf(files[..loaded])
      ensures old(Lagging()) ==> Lagging() && (!ok ==> (Synced() <==> old(Synced()) && AllIds(files[..loaded]) == {}))
      ensures old(drifted) == {} && (forall i :: 0 <= i < |files| ==> SmoothFile(files[i])) ==> drifted == {}
    {
      hide Consistent, FreshIds, FreshFiles, SmoothFile, AllIds, DocsOf, Texts, Behind, FilesStand;
      var read := LoadFiles(files);
      loaded := read;
      LoadedAll(files, loaded);
      RowsKept(old(chunks), chunks);
      CutShort(files, loaded, old(chunks), chunks, old(vectors).Keys, old(documents).Keys, sparse);
      if read < |files| { return false, loaded; }
      Rebuild();
      TextsBehind(chunks);
      ok := true;
    }

    /** delete_document: the dense delete may fail, the others happen. */
    method DeleteDocument(doc: DocId, fate: DeleteFate) returns (known: bool)
      requires Sound()
      modifies this
      ensures Sound() && known == (doc in old(documents))
      ensures known ==> Synced() && chunks == Without(old(chunks), doc) && documents == old(documents) - {doc}
      ensures known ==> Replaced(old(chunks), chunks, doc, [])
      ensures !known ==> chunks == old(chunks) && documents == old(documents) && vectors == old(vectors)
                         && sparse == old(sparse) && drifted == old(drifted)
      ensures known ==> drifted == if fate.Refused? && !fate.gone && Of(vectors, doc) != map[] then old(drifted) + {doc}
                                   else old(drifted) - {doc}
      ensures vectors.Keys <= old(vectors).Keys
    {
      hide Consistent, Texts, Replaced;
      if doc !in documents { return false; }
      NothingAdded(chunks, doc);
      var deleted := DeleteVectors(doc, fate);
      KeysWithout(old(vectors), doc);
      OfWithout(old(vectors), doc);
      OfWithout(chunks, doc);
      Removed(chunks, documents, old(vectors), drifted, doc, vectors);
      chunks := Without(chunks, doc);
      documents := documents - {doc};
      drifted := if Of(vectors, doc) != map[] then drifted + {doc} else drifted - {doc};
      GoneFrom(old(vectors), doc);
      Rebuild();
      known := true;
    }

    /** reindex: unknown id, missing file, or ingest again under the same id. */
    method Reindex(doc: DocId, present: bool, parsed: Parsed, fate: Fate) returns (ok: bool)
      requires Sound()
      requires parsed.Parsed? ==> FreshIds(parsed.chunks, chunks.Keys + vectors.Keys)
      modifies this
      ensures Sound() && documents.Keys == old(documents).Keys
      ensures ok <==> doc in old(documents) && present && parsed.Parsed?
      ensures ok ==> Synced() && chunks == Without(old(chunks), doc) + Rows(doc, parsed.chunks)
      ensures ok ==> Replaced(old(chunks), chunks, doc, parsed.chunks) && Worded(sparse, parsed.chunks)
      ensures ok ==> documents[doc].filename == old(documents)[doc].filename
                     && documents[doc].path == old(documents)[doc].path && documents[doc].chunkCount == |parsed.chunks|
      ensures ok && documents[doc].indexed ==> HoldsAll(vectors, doc, parsed.chunks)
      ensures forall d :: d in old(documents) && d != doc ==> documents[d] == old(documents)[d]
      ensures ok ==>
        drifted == if Heals(old(vectors), doc, parsed.chunks, fate) then old(drifted) - {doc} else old(drifted) + {doc}
      ensures ok ==> chunks.Keys + vectors.Keys <= old(chunks).Keys + old(vectors).Keys + IdsOf(parsed.chunks)
      ensures !ok ==> chunks == old(chunks) && documents == old(documents) && vectors == old(vectors)
                      && sparse == old(sparse) && drifted == old(drifted)
    {
      hide Consistent, Rows, Without, Of, Texts, Goes, Heals, FreshIds, Replaced, HoldsAll, Worded;
      if doc !in documents || !present { return false; }
      var row := documents[doc];
      var again := if parsed.Parsed? then parsed.(filename := row.filename) else parsed;
      ok := IngestFile(row.path, doc, again, fate, true);
    }

    /** Any request, with what holds after it whatever went wrong. */
    method Serve(r: Request) returns (ok: bool)
      requires Sound() && FreshRequest(r, chunks.Keys + vectors.Keys, documents.Keys)
      modifies this
      ensures Sound()
      ensures old(Synced()) && !Aborts(r) ==> Synced()
      ensures old(drifted) == {} && Smooth(r) ==> drifted == {}
      ensures chunks.Keys + vectors.Keys <= old(chunks).Keys + old(vectors).Keys + RequestIds(r)
      ensures documents.Keys <= old(documents).Keys + RequestDocs(r)
      ensures documents.Keys == KnownAfter(old(documents).Keys, r)
      ensures FilesStand(FilesOf(r), |FilesOf(r)|, chunks, documents)
      ensures LeavesOthers(r, old(chunks), chunks, old(documents), documents)
      ensures old(Lagging()) ==>
        Lagging() && (Synced() <==> Rebuilds(r, old(documents).Keys) || (old(Synced()) && !AddsUnseen(r)))
    {
      hide Consistent, Rows, Of, Texts, FreshIds, FreshFiles, SmoothFile, Goes, IdsOf, AllIds, DocsOf, Behind,
        ReadablePart, Replaced, HoldsAll, KeepsRows, Worded, Registered, LeavesOthers, FilesStand, FileStands;
      match r
      case Load(files) =>
        ghost var loaded;
        ok, loaded := IngestDirectory(files);
        ReadableIs(files, loaded);
        FirstStand(files, loaded, chunks, documents);
        LeavesAll(r, old(chunks), chunks, old(documents), documents);
      case Ingest(f) =>
        ok := LoadOne(f);
        RowsKept(old(chunks), chunks);
        LeavesAll(r, old(chunks), chunks, old(documents), documents);
        OneStands(r, chunks, documents);
        if ok {
          Rebuild();
          TextsBehind(chunks);
        }
      case Redo(doc, present, parsed, fate) =>
        HealsWhen(vectors, doc, parsed, fate);
        ok := Reindex(doc, present, parsed, fate);
        RowsKept(chunks, chunks);
        if ok {
          OthersKept(old(chunks), chunks, doc, parsed.chunks);
          TextsBehind(chunks);
        }
        LeavesBut(r, old(chunks), chunks, old(documents), documents);
      case Drop(doc, fate) =>
        KeysWithout(chunks, doc);
        ok := DeleteDocument(doc, fate);
        RowsKept(chunks, chunks);
        if ok {
          OthersKept(old(chunks), chunks, doc, []);
          TextsBehind(chunks);
        }
        LeavesBut(r, old(chunks), chunks, old(documents), documents);
    }

    /** A whole run from nothing. */
    method ServeAll(requests: seq<Request>)
      requires chunks == map[] && vectors == map[] && documents == map[] && drifted == {} && Sound() && Synced()
      requires FreshRequests(requests)
      modifies this
      ensures Sound()
      ensures (forall i :: 0 <= i < |requests| ==> !Aborts(requests[i])) ==> Synced()
      ensures (forall i :: 0 <= i < |requests| ==> Smooth(requests[i])) ==> vectors == chunks
      ensures documents.Keys == Known(requests) && (Synced() <==> InStep(requests))
      ensures AllStand(requests, |requests|, chunks, documents)
    {
      hide Consistent, FreshRequest, Smooth, Aborts, RequestIds, RequestDocs, Texts, UsedIds, UsedDocs, Known, InStep,
        Behind;
      hide Rebuilds, AddsUnseen, KnownAfter, FilesStand, LeavesOthers, FilesOf, FileStands, Untouched, AllStand;
      NothingStands(requests, chunks, documents);
      NothingUsed(requests);
      NothingServed(requests);
      TextsBehind(chunks);
      assert requests[..|requests|] == requests;
      for i := 0 to |requests|
        invariant Sound()
        invariant (forall k :: 0 <= k < i ==> !Aborts(requests[k])) ==> Synced()
        invariant (forall k :: 0 <= k < i ==> Smooth(requests[k])) ==> drifted == {}
        invariant AllStand(requests, i, chunks, documents)
        invariant Lagging() && documents.Keys == Known(requests[..i]) && (Synced() <==> InStep(requests[..i]))
        invariant chunks.Keys + vectors.Keys <= UsedIds(requests[..i]) && documents.Keys <= UsedDocs(requests[..i])
      {
        UsedNext(requests, i);
        ServedNext(requests, i);
        FreshFewer(requests[i], UsedIds(requests[..i]), UsedDocs(requests[..i]), chunks.Keys + vectors.Keys,
          documents.Keys);
        ghost var c, d := chunks, documents;
        var ok := Serve(requests[i]);
        AllStandNext(requests, i, c, d, chunks, documents);
      }
      DenseHitsAreLive(chunks, documents, vectors, drifted);
    }
  }

  /** The document's row, field by field. */
  predicate Registered(row: Document, path: Text, parsed: Parsed)
    requires parsed.Parsed?
  {
    row.filename == parsed.filename && row.path == path && row.chunkCount == |parsed.chunks|
  }

  /** The sparse index has each of these chunks under its own text. */
  predicate Worded(sparse: map<Id, Text>, chunks: seq<NewChunk>) {
    forall i :: 0 <= i < |chunks| ==> chunks[i].id in sparse && sparse[chunks[i].id] == chunks[i].text
  }

  lemma HeldWords(before: map<Id, Row>, after: map<Id, Row>, sparse: map<Id, Text>, doc: DocId, chunks: seq<NewChunk>)
    requires Replaced(before, after, doc, chunks)
    requires (forall id :: id in sparse <==> id in after) && forall id :: id in sparse ==> sparse[id] == after[id].text
    ensures Worded(sparse, chunks)
  {
    forall i | 0 <= i < |chunks| ensures chunks[i].id in sparse && sparse[chunks[i].id] == chunks[i].text {
      assert Holds(after, doc, chunks[i]);
    }
  }

  lemma EmbeddedHolds(vectors: map<Id, Row>, doc: DocId, chunks: seq<NewChunk>, used: set<Id>)
    requires Of(vectors, doc) == Rows(doc, chunks) && FreshIds(chunks, used)
    ensures HoldsAll(vectors, doc, chunks)
  {
    OfHolds(vectors, doc, chunks);
  }

  function IdsOf(cs: seq<NewChunk>): set<Id> { set i | 0 <= i < |cs| :: cs[i].id }

  lemma StoredIds(doc: DocId, added: seq<NewChunk>, stored: seq<NewChunk>)
    requires forall c :: c in stored ==> c in added
    ensures Rows(doc, stored).Keys <= IdsOf(added)
  {
    RowsKeys(doc, stored);
    forall id | id in Rows(doc, stored) ensures id in IdsOf(added) {
      var i :| 0 <= i < |stored| && stored[i].id == id;
      assert stored[i] in added;
    }
  }

  lemma KeysWithout(m: map<Id, Row>, doc: DocId)
    ensures Without(m, doc).Keys <= m.Keys
  {
  }

  lemma NoChunks(doc: DocId)
    ensures Rows(doc, []) == map[]
  {
  }

  /** Nothing on the dense side fails while a document of `n` chunks is embedded. */
  ghost predicate Goes(fate: Fate, n: nat) {
    fate.embeds && fate.delete.Deleted? && forall b: nat :: b * 256 < n ==> fate.batch(b).Written?
  }

  /** When an ingest leaves the vectors of its document as they should be: the
      embedding went through, or there is nothing to embed and nothing left over. */
  ghost predicate Heals(vectors: map<Id, Row>, doc: DocId, added: seq<NewChunk>, fate: Fate) {
    if added == [] then Of(vectors, doc) == map[] else Goes(fate, |added|)
  }

  /** What of a batch got through. */
  function Got(batch: seq<NewChunk>, kept: Option<set<Id>>): seq<NewChunk> {
    if batch == [] then []
    else
      var last := batch[|batch| - 1];
      Got(batch[..|batch| - 1], kept) + (if kept.None? || last.id in kept.value then [last] else [])
  }

  lemma GotSnoc(batch: seq<NewChunk>, i: nat, kept: Option<set<Id>>)
    requires i < |batch|
    ensures Got(batch[..i + 1], kept) ==
      Got(batch[..i], kept) + (if kept.None? || batch[i].id in kept.value then [batch[i]] else [])
  {
    assert batch[..i + 1][..i] == batch[..i];
  }

  lemma {:induction false} GotFrom(batch: seq<NewChunk>, kept: Option<set<Id>>)
    ensures forall c :: c in Got(batch, kept) ==> c in batch
    ensures kept.None? ==> Got(batch, kept) == batch
  {
    if batch != [] {
      GotFrom(batch[..|batch| - 1], kept);
      assert batch[..|batch| - 1] + [batch[|batch| - 1]] == batch;
    }
  }

  lemma PutOne(m: map<Id, Row>, doc: DocId, cs: seq<NewChunk>, c: NewChunk)
    ensures (m + Rows(doc, cs))[c.id := RowOf(doc, c)] == m + Rows(doc, cs + [c])
  {
    assert (cs + [c])[..|cs|] == cs;
  }

  lemma NothingGot(kept: Option<set<Id>>)
    ensures Got([], kept) == []
  {
  }

  lemma NoRows(doc: DocId, m: map<Id, Row>)
    ensures m + Rows(doc, []) == m
  {
  }

  lemma Regroup(m: map<Id, Row>, a: map<Id, Row>, b: map<Id, Row>)
    ensures m + (a + b) == (m + a) + b
  {
  }

  lemma {:induction false} RowsAppend(doc: DocId, a: seq<NewChunk>, b: seq<NewChunk>)
    ensures Rows(doc, a + b) == Rows(doc, a) + Rows(doc, b)
    decreases |b|
  {
    if b == [] {
      assert a + b == a;
    } else {
      assert (a + b)[..|a + b| - 1] == a + b[..|b| - 1];
      RowsAppend(doc, a, b[..|b| - 1]);
    }
  }

  lemma OfWithout(m: map<Id, Row>, doc: DocId)
    ensures forall d :: d != doc ==> Of(Without(m, doc), d) == Of(m, d)
  {
  }

  lemma StoredApart(doc: DocId, added: seq<NewChunk>, stored: seq<NewChunk>, m: map<Id, Row>)
    requires FreshIds(added, m.Keys) && forall c :: c in stored ==> c in added
    ensures forall id :: id in Rows(doc, stored) ==> Rows(doc, stored)[id].doc == doc && id !in m
  {
    RowsKeys(doc, stored);
    forall id | id in Rows(doc, stored) ensures id !in m {
      var i :| 0 <= i < |stored| && stored[i].id == id;
      assert stored[i] in added;
    }
  }

  // --- many files -------------------------------------------------------------------------------------

  function AllIds(files: seq<File>): set<Id> {
    if files == [] then {}
    else
      var last := files[|files| - 1];
      AllIds(files[..|files| - 1]) + (if last.parsed.Parsed? then IdsOf(last.parsed.chunks) else {})
  }

  function DocsOf(files: seq<File>): set<DocId> {
    if files == [] then {} else DocsOf(files[..|files| - 1]) + {files[|files| - 1].doc}
  }

  /** New files get ids no store has seen, each its own. */
  ghost predicate FreshFiles(files: seq<File>, ids: set<Id>, docs: set<DocId>) {
    forall i :: 0 <= i < |files| ==>
      && files[i].doc !in docs + DocsOf(files[..i])
      && (files[i].parsed.Parsed? ==> FreshIds(files[i].parsed.chunks, ids + AllIds(files[..i])))
  }

  /** The file's chunks and its own row are in the tables, field by field. */
  predicate FileStands(f: File, chunks: map<Id, Row>, documents: map<DocId, Document>) {
    && f.parsed.Parsed? && f.doc in documents && Registered(documents[f.doc], f.path, f.parsed)
    && HoldsAll(chunks, f.doc, f.parsed.chunks)
  }

  ghost predicate Kept(before: map<DocId, Document>, after: map<DocId, Document>) {
    forall d :: d in before ==> d in after && after[d] == before[d]
  }

  /** The rows of `d` are still there, as they were. */
  ghost predicate KeepsRows(before: map<Id, Row>, after: map<Id, Row>, d: DocId) {
    forall id :: id in before && before[id].doc == d ==> id in after && after[id] == before[id]
  }

  lemma RowsKept(before: map<Id, Row>, after: map<Id, Row>)
    requires forall id :: id in before ==> id in after && after[id] == before[id]
    ensures forall d :: KeepsRows(before, after, d)
  {
  }

  lemma OthersKept(before: map<Id, Row>, after: map<Id, Row>, doc: DocId, chunks: seq<NewChunk>)
    requires Replaced(before, after, doc, chunks)
    ensures forall d :: d != doc ==> KeepsRows(before, after, d)
  {
  }

  ghost predicate FilesStand(files: seq<File>, i: nat, chunks: map<Id, Row>, documents: map<DocId, Document>) {
    i <= |files| && forall k :: 0 <= k < i ==> FileStands(files[k], chunks, documents)
  }

  /** More rows do not change what stands. */
  lemma StandsOn(f: File, c: map<Id, Row>, d: map<DocId, Document>, c': map<Id, Row>, d': map<DocId, Document>)
    requires FileStands(f, c, d)
    requires (forall id :: id in c ==> id in c' && c'[id] == c[id]) && forall k :: k in d ==> k in d' && d'[k] == d[k]
    ensures FileStands(f, c', d')
  {
    forall i | 0 <= i < |f.parsed.chunks| ensures Holds(c', f.doc, f.parsed.chunks[i]) {
      assert Holds(c, f.doc, f.parsed.chunks[i]);
    }
  }

  lemma FilesStandOn(files: seq<File>, i: nat, c: map<Id, Row>, d: map<DocId, Document>, c': map<Id, Row>,
                     d': map<DocId, Document>)
    requires i < |files| && FilesStand(files, i, c, d) && FileStands(files[i], c', d')
    requires (forall id :: id in c ==> id in c' && c'[id] == c[id]) && forall k :: k in d ==> k in d' && d'[k] == d[k]
    ensures FilesStand(files, i + 1, c', d')
  {
    forall k | 0 <= k < i ensures FileStands(files[k], c', d') { StandsOn(files[k], c, d, c', d'); }
  }

  /** Nothing dense fails for this file. */
  ghost predicate SmoothFile(f: File) {
    f.parsed.Parsed? && f.parsed.chunks != [] ==> Goes(f.fate, |f.parsed.chunks|)
  }

  /** The stores after the first `i` files, given what they were before. */
  ghost predicate LoadedSoFar(files: seq<File>, i: nat, c0: map<Id, Row>, v0: map<Id, Row>, d0: map<DocId, Document>,
                              c: map<Id, Row>, v: map<Id, Row>, d: map<DocId, Document>)
  {
    && i <= |files|
    && c.Keys == c0.Keys + AllIds(files[..i])
    && (forall id :: id in c0 ==> id in c && c[id] == c0[id])
    && v.Keys <= c0.Keys + v0.Keys + AllIds(files[..i])
    && d.Keys == d0.Keys + DocsOf(files[..i])
  }

  lemma NoneLoaded(files: seq<File>, c: map<Id, Row>, v: map<Id, Row>, d: map<DocId, Document>)
    ensures LoadedSoFar(files, 0, c, v, d, c, v, d)
  {
  }

  lemma StillLoaded(files: seq<File>, i: nat, c0: map<Id, Row>, v0: map<Id, Row>, d0: map<DocId, Document>,
                  c: map<Id, Row>, v: map<Id, Row>, d: map<DocId, Document>, c': map<Id, Row>, v': map<Id, Row>,
                    d': map<DocId, Document>)
    requires LoadedSoFar(files, i, c0, v0, d0, c, v, d)
    requires c' == c && v'.Keys <= c.Keys + v.Keys && d'.Keys == d.Keys
    ensures LoadedSoFar(files, i, c0, v0, d0, c', v', d')
  {
  }

  lemma BeforeFile(files: seq<File>, i: nat, c0: map<Id, Row>, v0: map<Id, Row>, d0: map<DocId, Document>,
                   c: map<Id, Row>, v: map<Id, Row>, d: map<DocId, Document>)
    requires i < |files| && FreshFiles(files, c0.Keys + v0.Keys, d0.Keys) && LoadedSoFar(files, i, c0, v0, d0, c, v, d)
    ensures files[i].doc !in d
    ensures files[i].parsed.Parsed? ==> FreshIds(files[i].parsed.chunks, c.Keys + v.Keys)
  {
    hide FreshIds, FreshFiles, AllIds, DocsOf;
    LoadNext(files, i, c0.Keys, v0.Keys, d0.Keys);
    if files[i].parsed.Parsed? {
      FreshLess(files[i].parsed.chunks, c0.Keys + v0.Keys + AllIds(files[..i]), c.Keys + v.Keys);
    }
  }

  lemma LoadedNext(files: seq<File>, i: nat)
    requires i < |files|
    ensures AllIds(files[..i + 1]) ==
      AllIds(files[..i]) + (if files[i].parsed.Parsed? then IdsOf(files[i].parsed.chunks) else {})
    ensures DocsOf(files[..i + 1]) == DocsOf(files[..i]) + {files[i].doc}
  {
    assert files[..i + 1][..i] == files[..i];
  }

  lemma AfterFile(files: seq<File>, i: nat, c0: map<Id, Row>, v0: map<Id, Row>, d0: map<DocId, Document>,
                  c: map<Id, Row>, v: map<Id, Row>, d: map<DocId, Document>, c': map<Id, Row>, v': map<Id, Row>,
                    d': map<DocId, Document>)
    requires i < |files| && files[i].parsed.Parsed? && LoadedSoFar(files, i, c0, v0, d0, c, v, d)
    requires c'.Keys == c.Keys + IdsOf(files[i].parsed.chunks) && d'.Keys == d.Keys + {files[i].doc}
    requires v'.Keys <= c.Keys + v.Keys + IdsOf(files[i].parsed.chunks)
    requires forall id :: id in c ==> id in c' && c'[id] == c[id]
    ensures LoadedSoFar(files, i + 1, c0, v0, d0, c', v', d')
  {
    LoadedNext(files, i);
    hide IdsOf, AllIds, DocsOf;
  }

  lemma LoadNext(files: seq<File>, i: nat, ids: set<Id>, vids: set<Id>, docs: set<DocId>)
    requires i < |files| && FreshFiles(files, ids + vids, docs)
    ensures files[i].doc !in docs + DocsOf(files[..i])
    ensures files[i].parsed.Parsed? ==> FreshIds(files[i].parsed.chunks, ids + vids + AllIds(files[..i]))
    ensures AllIds(files[..i + 1]) ==
      AllIds(files[..i]) + (if files[i].parsed.Parsed? then IdsOf(files[i].parsed.chunks) else {})
    ensures DocsOf(files[..i + 1]) == DocsOf(files[..i]) + {files[i].doc}
  {
    hide FreshIds, AllIds, DocsOf;
    LoadedNext(files, i);
  }

  lemma {:induction false} LoadedAll(files: seq<File>, i: nat)
    requires i <= |files|
    ensures AllIds(files[..i]) <= AllIds(files) && DocsOf(files[..i]) <= DocsOf(files)
    decreases |files| - i
  {
    if i < |files| {
      LoadedAll(files, i + 1);
      assert files[..i + 1][..i] == files[..i];
    } else {
      assert files[..i] == files;
    }
  }

  lemma FreshLess(added: seq<NewChunk>, more: set<Id>, less: set<Id>)
    requires FreshIds(added, more) && less <= more
    ensures FreshIds(added, less)
  {
  }

  /** What an early end leaves. */
  lemma CutShort(files: seq<File>, i: nat, before: map<Id, Row>, after: map<Id, Row>, vids: set<Id>, docs: set<DocId>,
    sparse: map<Id, Text>)
    requires i <= |files| && FreshFiles(files, before.Keys + vids, docs)
    requires after.Keys == before.Keys + AllIds(files[..i])
    requires forall id :: id in before ==> id in after && after[id] == before[id]
    ensures sparse == Texts(before) ==> (sparse == Texts(after) <==> AllIds(files[..i]) == {})
    ensures Behind(sparse, before) ==>
      Behind(sparse, after) && (sparse == Texts(after) <==> sparse == Texts(before) && AllIds(files[..i]) == {})
  {
    hide AllIds, FreshFiles, Texts, Behind;
    LoadedApart(files, i, before.Keys + vids, docs);
    SameTexts(before, after, AllIds(files[..i]));
    if Behind(sparse, before) { BehindGrows(sparse, before, after, AllIds(files[..i])); }
  }

  /** A document nobody knows has no chunks, and no vectors unless it drifted. */
  lemma NewDocument(c: map<Id, Row>, docs: map<DocId, Document>, v: map<Id, Row>, drifted: set<DocId>, doc: DocId)
    requires Consistent(c, docs, v, drifted) && doc !in docs
    ensures Of(c, doc) == map[] && Without(c, doc) == c
    ensures doc !in drifted ==> Of(v, doc) == map[]
  {
  }

  lemma AddedKeys(c: map<Id, Row>, doc: DocId, added: seq<NewChunk>)
    ensures (c + Rows(doc, added)).Keys == c.Keys + IdsOf(added)
  {
    RowsKeys(doc, added);
  }

  lemma OldKept(c: map<Id, Row>, doc: DocId, added: seq<NewChunk>, others: set<Id>)
    requires FreshIds(added, c.Keys + others)
    ensures forall id :: id in c ==> (c + Rows(doc, added))[id] == c[id]
  {
    RowsKeys(doc, added);
  }

  lemma {:induction false} LoadedApart(files: seq<File>, i: nat, ids: set<Id>, docs: set<DocId>)
    requires i <= |files| && FreshFiles(files, ids, docs)
    ensures AllIds(files[..i]) !! ids
  {
    if i > 0 {
      LoadedApart(files, i - 1, ids, docs);
      assert files[..i][..i - 1] == files[..i - 1];
      var f := files[i - 1];
      if f.parsed.Parsed? { assert FreshIds(f.parsed.chunks, ids + AllIds(files[..i - 1])); }
    }
  }

  lemma SameTexts(before: map<Id, Row>, after: map<Id, Row>, more: set<Id>)
    requires after.Keys == before.Keys + more && more !! before.Keys
    requires forall id :: id in before ==> id in after && after[id] == before[id]
    ensures Texts(before) == Texts(after) <==> more == {}
  {
    assert Texts(before).Keys == before.Keys && Texts(after).Keys == after.Keys;
    if more == {} { assert forall id :: id in before <==> id in after; }
  }

  lemma SmoothHeals(f: File, v: map<Id, Row>)
    requires f.parsed.Parsed? && SmoothFile(f) && Of(v, f.doc) == map[]
    ensures Heals(v, f.doc, f.parsed.chunks, f.fate)
  {
  }

  // --- deleting ----------------------------------------------------------------------------------------

  lemma Removed(c: map<Id, Row>, docs: map<DocId, Document>, v: map<Id, Row>, drifted: set<DocId>, doc: DocId,
    v': map<Id, Row>)
    requires Consistent(c, docs, v, drifted)
    requires forall d :: d != doc ==> Of(v', d) == Of(v, d)
    ensures Consistent(Without(c, doc), docs - {doc}, v', if Of(v', doc) != map[]
      then drifted + {doc} else drifted - {doc})
  {
    hide Consistent;
    OfWithout(c, doc);
    GoneFrom(c, doc);
    StillWithout(c, docs, v, drifted, doc, Without(c, doc), v');
  }

  lemma StillWithout(c: map<Id, Row>, docs: map<DocId, Document>, v: map<Id, Row>, drifted: set<DocId>,
                     doc: DocId, c': map<Id, Row>, v': map<Id, Row>)
    requires Consistent(c, docs, v, drifted)
    requires forall d :: d != doc ==> Of(c', d) == Of(c, d) && Of(v', d) == Of(v, d)
    requires Of(c', doc) == map[] && forall id :: id in c' ==> id in c && c'[id] == c[id] && c[id].doc != doc
    ensures Consistent(c', docs - {doc}, v', if Of(v', doc) != map[] then drifted + {doc} else drifted - {doc})
  {
    hide Of;
  }

  lemma GoneFrom(v: map<Id, Row>, doc: DocId)
    ensures Of(Without(v, doc), doc) == map[]
  {
  }

  // --- what a reader may rely on -----------------------------------------------------------------------

  /** A dense hit from a document that has not drifted is a live chunk, with the
      very text and provenance the tables hold; and with no drift at all the
      vectors are exactly the chunks. */
  lemma DenseHitsAreLive(c: map<Id, Row>, docs: map<DocId, Document>, v: map<Id, Row>, drifted: set<DocId>)
    requires Consistent(c, docs, v, drifted)
    ensures forall id :: id in v && v[id].doc !in drifted ==> id in c && c[id] == v[id]
    ensures drifted == {} ==> v == c
  {
    forall id | id in v && v[id].doc !in drifted ensures id in c && c[id] == v[id] {
      assert id in Of(v, v[id].doc) && Of(v, v[id].doc) == Of(c, v[id].doc);
    }
    if drifted == {} {
      forall id | id in c ensures id in v {
        assert id in Of(c, c[id].doc) && Of(v, c[id].doc) == Of(c, c[id].doc);
      }
    }
  }

  // --- runs of requests --------------------------------------------------------------------------------

  /** A directory ingest that stops at an unreadable file, before its rebuild. */
  predicate Aborts(r: Request) {
    r.Load? && exists i :: 0 <= i < |r.files| && r.files[i].parsed.Unreadable?
  }

  /** Nothing dense fails, and no document is ingested again into nothing. */
  ghost predicate Smooth(r: Request) {
    match r
    case Load(files) => forall i :: 0 <= i < |files| ==> SmoothFile(files[i])
    case Ingest(f) => SmoothFile(f)
    case Redo(_, _, parsed, fate) => parsed.Parsed? ==> parsed.chunks != [] && Goes(fate, |parsed.chunks|)
    case Drop(_, fate) => fate.Deleted?
  }

  /** The files of a directory before the first that cannot be read. */
  function ReadablePart(files: seq<File>): seq<File> {
    if files == [] then []
    else
      var init, last := files[..|files| - 1], files[|files| - 1];
      if |ReadablePart(init)| == |init| && last.parsed.Parsed? then files else ReadablePart(init)
  }

  lemma {:induction false} ReadableIs(files: seq<File>, n: nat)
    requires n <= |files| && (forall i :: 0 <= i < n ==> files[i].parsed.Parsed?)
    requires n < |files| ==> files[n].parsed.Unreadable?
    ensures ReadablePart(files) == files[..n]
  {
    if files != [] {
      var init := files[..|files| - 1];
      if n < |files| {
        ReadableIs(init, n);
        assert init[..n] == files[..n];
      } else {
        ReadableIs(init, n - 1);
        assert init[..n - 1] == init;
      }
    }
  }

  /** The files a request gets into the tables, if it is not one about a document. */
  function FilesOf(r: Request): seq<File> {
    match r
    case Load(files) => ReadablePart(files)
    case Ingest(f) => if f.parsed.Parsed? then [f] else []
    case _ => []
  }

  predicate Touches(r: Request, d: DocId) { (r.Redo? || r.Drop?) && r.doc == d }

  /** Documents a request is not about keep their row and their chunks. */
  ghost predicate LeavesOthers(r: Request, c: map<Id, Row>, c': map<Id, Row>, docs: map<DocId, Document>,
                               docs': map<DocId, Document>) {
    forall d :: d in docs && !Touches(r, d) ==> d in docs' && docs'[d] == docs[d] && KeepsRows(c, c', d)
  }

  lemma LeavesAll(r: Request, c: map<Id, Row>, c': map<Id, Row>, docs: map<DocId, Document>,
    docs': map<DocId, Document>)
    requires Kept(docs, docs') && forall d :: KeepsRows(c, c', d)
    ensures LeavesOthers(r, c, c', docs, docs')
  {
  }

  lemma LeavesBut(r: Request, c: map<Id, Row>, c': map<Id, Row>, docs: map<DocId, Document>,
    docs': map<DocId, Document>)
    requires r.Redo? || r.Drop?
    requires forall d :: d != r.doc ==> KeepsRows(c, c', d)
    requires forall d :: d in docs && d != r.doc ==> d in docs' && docs'[d] == docs[d]
    ensures LeavesOthers(r, c, c', docs, docs') && FilesStand(FilesOf(r), |FilesOf(r)|, c', docs')
  {
  }

  lemma OneStands(r: Request, c: map<Id, Row>, docs: map<DocId, Document>)
    requires r.Ingest? && (r.file.parsed.Parsed? ==> FileStands(r.file, c, docs))
    ensures FilesStand(FilesOf(r), |FilesOf(r)|, c, docs)
  {
  }

  lemma FirstStand(files: seq<File>, n: nat, c: map<Id, Row>, d: map<DocId, Document>)
    requires FilesStand(files, n, c, d)
    ensures FilesStand(files[..n], n, c, d)
  {
    hide FileStands;
  }

  lemma StandsThrough(f: File, r: Request, c: map<Id, Row>, c': map<Id, Row>, d: map<DocId, Document>,
                      d': map<DocId, Document>)
    requires FileStands(f, c, d) && LeavesOthers(r, c, c', d, d') && !Touches(r, f.doc)
    ensures FileStands(f, c', d')
  {
    assert KeepsRows(c, c', f.doc);
    forall i | 0 <= i < |f.parsed.chunks| ensures Holds(c', f.doc, f.parsed.chunks[i]) {
      assert Holds(c, f.doc, f.parsed.chunks[i]);
    }
  }

  /** No request from `k` up to `n` is about document `d`. */
  predicate Untouched(requests: seq<Request>, k: nat, n: nat, d: DocId) {
    forall j :: k <= j < n && j < |requests| ==> !Touches(requests[j], d)
  }

  /** Every file that was read, of any of the first `n` requests, and whose document
      no later one was about, is in the tables as it was read. */
  ghost predicate AllStand(requests: seq<Request>, n: nat, c: map<Id, Row>, d: map<DocId, Document>) {
    forall k, f :: 0 <= k < n && k < |requests| && f in FilesOf(requests[k]) && Untouched(requests, k + 1, n, f.doc) ==>
      FileStands(f, c, d)
  }

  lemma NothingStands(requests: seq<Request>, c: map<Id, Row>, d: map<DocId, Document>)
    ensures AllStand(requests, 0, c, d)
  {
  }

  lemma AllStandNext(requests: seq<Request>, n: nat, c: map<Id, Row>, d: map<DocId, Document>, c': map<Id, Row>,
                     d': map<DocId, Document>)
    requires n < |requests| && AllStand(requests, n, c, d) && LeavesOthers(requests[n], c, c', d, d')
    requires FilesStand(FilesOf(requests[n]), |FilesOf(requests[n])|, c', d')
    ensures AllStand(requests, n + 1, c', d')
  {
    hide FileStands, FilesOf, LeavesOthers, Touches;
    forall k, f | 0 <= k <= n && f in FilesOf(requests[k]) && Untouched(requests, k + 1, n + 1, f.doc)
      ensures FileStands(f, c', d')
    {
      if k < n {
        assert Untouched(requests, k + 1, n, f.doc) && !Touches(requests[n], f.doc);
        StandsThrough(f, requests[n], c, c', d, d');
      } else {
        var i :| 0 <= i < |FilesOf(requests[n])| && FilesOf(requests[n])[i] == f;
        assert FileStands(FilesOf(requests[n])[i], c', d');
      }
    }
  }

  /** What a request leaves registered. */
  function KnownAfter(known: set<DocId>, r: Request): set<DocId> {
    match r
    case Load(files) => known + DocsOf(ReadablePart(files))
    case Ingest(f) => if f.parsed.Parsed? then known + {f.doc} else known
    case Redo(_, _, _, _) => known
    case Drop(doc, _) => known - {doc}
  }

  /** It gets as far as rebuilding the sparse index. */
  predicate Rebuilds(r: Request, known: set<DocId>) {
    match r
    case Load(_) => !Aborts(r)
    case Ingest(f) => f.parsed.Parsed?
    case Redo(doc, present, parsed, _) => doc in known && present && parsed.Parsed?
    case Drop(doc, _) => doc in known
  }

  /** It adds chunks and stops before the rebuild. */
  predicate AddsUnseen(r: Request) { Aborts(r) && AllIds(ReadablePart(r.files)) != {} }

  function Known(requests: seq<Request>): set<DocId> {
    if requests == [] then {} else KnownAfter(Known(requests[..|requests| - 1]), requests[|requests| - 1])
  }

  /** No directory ingest has been cut short after adding chunks, or the sparse
      index has been rebuilt since. */
  predicate InStep(requests: seq<Request>) {
    requests == [] ||
    var init, last := requests[..|requests| - 1], requests[|requests| - 1];
    Rebuilds(last, Known(init)) || (InStep(init) && !AddsUnseen(last))
  }

  lemma NothingServed(requests: seq<Request>)
    ensures Known(requests[..0]) == {} && InStep(requests[..0])
  {
  }

  lemma ServedNext(requests: seq<Request>, i: nat)
    requires i < |requests|
    ensures Known(requests[..i + 1]) == KnownAfter(Known(requests[..i]), requests[i])
    ensures InStep(requests[..i + 1]) <==>
      Rebuilds(requests[i], Known(requests[..i])) || (InStep(requests[..i]) && !AddsUnseen(requests[i]))
  {
    assert requests[..i + 1][..i] == requests[..i];
  }

  /** What the sparse index holds is part of what the tables hold. */
  ghost predicate Behind(sparse: map<Id, Text>, chunks: map<Id, Row>) {
    forall id :: id in sparse ==> id in chunks && sparse[id] == chunks[id].text
  }

  lemma TextsBehind(chunks: map<Id, Row>)
    ensures Behind(Texts(chunks), chunks)
  {
  }

  /** New chunks do not bring a lagging index into step. */
  lemma BehindGrows(sparse: map<Id, Text>, before: map<Id, Row>, after: map<Id, Row>, more: set<Id>)
    requires Behind(sparse, before) && after.Keys == before.Keys + more && more !! before.Keys
    requires forall id :: id in before ==> id in after && after[id] == before[id]
    ensures Behind(sparse, after) && (sparse == Texts(after) <==> sparse == Texts(before) && more == {})
  {
    SameTexts(before, after, more);
    assert Texts(after).Keys == after.Keys;
    assert sparse.Keys <= before.Keys;
  }

  function RequestIds(r: Request): set<Id> {
    match r
    case Load(files) => AllIds(files)
    case Ingest(f) => if f.parsed.Parsed? then IdsOf(f.parsed.chunks) else {}
    case Redo(_, _, parsed, _) => if parsed.Parsed? then IdsOf(parsed.chunks) else {}
    case Drop(_, _) => {}
  }

  function RequestDocs(r: Request): set<DocId> {
    match r
    case Load(files) => DocsOf(files)
    case Ingest(f) => {f.doc}
    case _ => {}
  }

  ghost predicate FreshRequest(r: Request, ids: set<Id>, docs: set<DocId>) {
    match r
    case Load(files) => FreshFiles(files, ids, docs)
    case Ingest(f) => f.doc !in docs && (f.parsed.Parsed? ==> FreshIds(f.parsed.chunks, ids))
    case Redo(_, _, parsed, _) => parsed.Parsed? ==> FreshIds(parsed.chunks, ids)
    case Drop(_, _) => true
  }

  function UsedIds(requests: seq<Request>): set<Id> {
    if requests == [] then {} else UsedIds(requests[..|requests| - 1]) + RequestIds(requests[|requests| - 1])
  }

  function UsedDocs(requests: seq<Request>): set<DocId> {
    if requests == [] then {} else UsedDocs(requests[..|requests| - 1]) + RequestDocs(requests[|requests| - 1])
  }

  ghost predicate FreshRequests(requests: seq<Request>) {
    forall i :: 0 <= i < |requests| ==> FreshRequest(requests[i], UsedIds(requests[..i]), UsedDocs(requests[..i]))
  }

  lemma NothingUsed(requests: seq<Request>)
    ensures UsedIds(requests[..0]) == {} && UsedDocs(requests[..0]) == {}
  {
  }

  lemma UsedNext(requests: seq<Request>, i: nat)
    requires i < |requests|
    ensures UsedIds(requests[..i + 1]) == UsedIds(requests[..i]) + RequestIds(requests[i])
    ensures UsedDocs(requests[..i + 1]) == UsedDocs(requests[..i]) + RequestDocs(requests[i])
  {
    assert requests[..i + 1][..i] == requests[..i];
  }

  lemma FreshFewer(r: Request, ids: set<Id>, docs: set<DocId>, ids': set<Id>, docs': set<DocId>)
    requires FreshRequest(r, ids, docs) && ids' <= ids && docs' <= docs
    ensures FreshRequest(r, ids', docs')
  {
    match r
    case Load(files) =>
      forall i | 0 <= i < |files|
        ensures files[i].doc !in docs' + DocsOf(files[..i])
        ensures files[i].parsed.Parsed? ==> FreshIds(files[i].parsed.chunks, ids' + AllIds(files[..i]))
      {
        if files[i].parsed.Parsed? { FreshLess(files[i].parsed.chunks, ids + AllIds(files[..i]),
          ids' + AllIds(files[..i])); }
      }
    case Ingest(f) => if f.parsed.Parsed? { FreshLess(f.parsed.chunks, ids, ids'); }
    case Redo(_, _, parsed, _) => if parsed.Parsed? { FreshLess(parsed.chunks, ids, ids'); }
    case Drop(_, _) =>
  }

  lemma HealsWhen(v: map<Id, Row>, doc: DocId, parsed: Parsed, fate: Fate)
    ensures parsed.Parsed? && parsed.chunks != [] && Goes(fate, |parsed.chunks|) ==> Heals(v, doc, parsed.chunks, fate)
  {
  }

  /** Where the sparse index is left behind: one good file, then one that cannot
      be read. */
  method AbortedLoad(c: NewChunk, d: DocId, e: DocId) returns (s: Service)
    requires d != e
    ensures s.Sound() && !s.Synced() && c.id in s.chunks && c.id !in s.sparse
  {
    var fine := Fate(true, Deleted, (b: nat) => Written);
    var files := [File([], d, Parsed([], [c]), fine), File([], e, Unreadable, fine)];
    s := new Service();
    assert files[..0] == [] && files[..1][..0] == [] && files[..1] == [files[0]];
    assert DocsOf(files[..1]) == {d} && DocsOf(files[..0]) == {};
    assert AllIds(files[..0]) == {};
    assert AllIds(files[..1]) == IdsOf([c]) by { assert files[..1][|files[..1]| - 1] == files[0]; }
    assert c.id in IdsOf([c]) by { assert [c][0].id == c.id; }
    var ok, loaded := s.IngestDirectory(files);
    assert files[1].parsed.Unreadable?;
    assert loaded == 1;
  }
}
