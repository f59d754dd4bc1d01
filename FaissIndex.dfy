/** src/document_ingestion/data_ingestion.py, `FaissManager`: a vector index in
    one directory plus a manifest of the fingerprints already embedded. The
    FAISS store is modelled as the sequence of texts it holds; SHA-256 and the
    embedding provider are parameters. */
module FaissIndex {
  import opened Wrappers
  import opened PyText
  import opened Portal
  import ModelLoader

  // ---------------------------------------------------------------- fingerprints

  /** `_fingerprint(text, md)`: `"<source>::<row_id>"` when the metadata has a
      source (an empty source included), else the SHA-256 hex digest of the text. */
  function Fingerprint(text: string, md: Metadata, sha: string -> string): string {
    if md.source.Some? then md.source.value + "::" + (if md.rowId.None? then "" else md.rowId.value)
    else sha(text)
  }

  function Fp(d: Document, sha: string -> string): string {
    Fingerprint(d.content, d.meta, sha)
  }

  /** The page number takes no part in the fingerprint. */
  lemma FingerprintIgnoresPage(text: string, src: Option<string>, p: Option<nat>, q: Option<nat>,
                               rid: Option<string>, sha: string -> string)
    ensures Fingerprint(text, Metadata(src, p, rid), sha) == Fingerprint(text, Metadata(src, q, rid), sha)
  {
  }

  /** Chunks of one source without a row id share one fingerprint, whatever their text. */
  lemma SameSourceSameKey(a: Document, b: Document, sha: string -> string)
    requires a.meta.source.Some? && a.meta.source == b.meta.source
    requires a.meta.rowId.None? && b.meta.rowId.None?
    ensures Fp(a, sha) == Fp(b, sha)
  {
  }

  /** Source-based keys contain "::" and a hex digest does not, so a chunk with a
      source never collides with one fingerprinted by its text. */
  lemma SourceKeysDifferFromDigests(a: Document, b: Document, sha: string -> string)
    requires forall t :: IsHexToken(sha(t), 64)
    requires a.meta.source.Some? && b.meta.source.None?
    ensures Fp(a, sha) != Fp(b, sha)
  {
    var ka := Fp(a, sha);
    var n := |a.meta.source.value|;
    assert ka[n] == ':';
    assert IsHexToken(sha(b.content), 64);
  }

  /** The fingerprints of a list of documents. */
  function FpSet(docs: seq<Document>, sha: string -> string): set<string> {
    if docs == [] then {} else {Fp(docs[0], sha)} + FpSet(docs[1..], sha)
  }

  // ---------------------------------------------------------------- admission

  /** The manifest keys after a batch, and the documents the batch admitted. */
  datatype Admission = Admission(keys: set<string>, admitted: seq<Document>)

  /** The loop of `add_documents`: walk the batch in order, admitting each
      document whose fingerprint is not yet a key and recording its key. */
  function Admit(keys: set<string>, docs: seq<Document>, sha: string -> string): Admission
    decreases |docs|
  {
    if docs == [] then Admission(keys, [])
    else
      var k := Fp(docs[0], sha);
      if k in keys then Admit(keys, docs[1..], sha)
      else
        var rest := Admit(keys + {k}, docs[1..], sha);
        Admission(rest.keys, [docs[0]] + rest.admitted)
  }

  /** Afterwards every fingerprint of the batch is a key and no key was removed. */
  lemma {:induction false} AdmitKeys(keys: set<string>, docs: seq<Document>, sha: string -> string)
    ensures Admit(keys, docs, sha).keys == keys + FpSet(docs, sha)
    decreases |docs|
  {
    if docs != [] {
      var k := Fp(docs[0], sha);
      if k in keys {
        AdmitKeys(keys, docs[1..], sha);
      } else {
        AdmitKeys(keys + {k}, docs[1..], sha);
      }
    }
  }

  /** Document `i` is new: its fingerprint is neither a key nor the fingerprint
      of an earlier document of the batch. */
  predicate IsFirstNew(keys: set<string>, docs: seq<Document>, i: nat, sha: string -> string)
    requires i < |docs|
  {
    && Fp(docs[i], sha) !in keys
    && forall j :: 0 <= j < i ==> Fp(docs[j], sha) != Fp(docs[i], sha)
  }

  /** The new documents from position `i` on, in input order. */
  function NewFrom(keys: set<string>, docs: seq<Document>, i: nat, sha: string -> string): seq<Document>
    requires i <= |docs|
    decreases |docs| - i
  {
    if i == |docs| then []
    else (if IsFirstNew(keys, docs, i, sha) then [docs[i]] else []) + NewFrom(keys, docs, i + 1, sha)
  }

  lemma FpSetAppendOne(docs: seq<Document>, i: nat, sha: string -> string)
    requires i < |docs|
    ensures FpSet(docs[..i + 1], sha) == FpSet(docs[..i], sha) + {Fp(docs[i], sha)}
  {
    FpSetAppend(docs[..i], [docs[i]], sha);
    assert docs[..i + 1] == docs[..i] + [docs[i]];
  }

  lemma {:induction false} FpSetAppend(a: seq<Document>, b: seq<Document>, sha: string -> string)
    ensures FpSet(a + b, sha) == FpSet(a, sha) + FpSet(b, sha)
  {
    if a == [] {
      assert a + b == b;
    } else {
      assert (a + b)[0] == a[0] && (a + b)[1..] == a[1..] + b;
      FpSetAppend(a[1..], b, sha);
    }
  }

  lemma {:induction false} FpSetMembers(docs: seq<Document>, sha: string -> string)
    ensures forall k :: k in FpSet(docs, sha) <==> exists j :: 0 <= j < |docs| && Fp(docs[j], sha) == k
  {
    if docs != [] {
      FpSetMembers(docs[1..], sha);
      forall k | k in FpSet(docs, sha) ensures exists j :: 0 <= j < |docs| && Fp(docs[j], sha) == k {
        if k != Fp(docs[0], sha) {
          assert k in FpSet(docs[1..], sha);
          var j :| 0 <= j < |docs[1..]| && Fp(docs[1..][j], sha) == k;
          assert Fp(docs[j + 1], sha) == k;
        }
      }
      forall k | exists j :: 0 <= j < |docs| && Fp(docs[j], sha) == k ensures k in FpSet(docs, sha) {
        var j :| 0 <= j < |docs| && Fp(docs[j], sha) == k;
        if j > 0 {
          assert Fp(docs[1..][j - 1], sha) == k;
        }
      }
    }
  }

  /** `add_documents` admits a document iff its fingerprint is absent both from
      the manifest and from the earlier documents of the batch, keeping input order. */
  lemma AdmitSelectsFirstNew(keys: set<string>, docs: seq<Document>, sha: string -> string)
    ensures Admit(keys, docs, sha).admitted == NewFrom(keys, docs, 0, sha)
  {
    AdmitFrom(keys, docs, 0, sha);
    assert docs[..0] == [] && docs[0..] == docs;
    assert keys + FpSet(docs[..0], sha) == keys;
  }

  lemma {:induction false} AdmitFrom(keys: set<string>, docs: seq<Document>, i: nat, sha: string -> string)
    requires i <= |docs|
    ensures Admit(keys + FpSet(docs[..i], sha), docs[i..], sha).admitted == NewFrom(keys, docs, i, sha)
    decreases |docs| - i
  {
    if i < |docs| {
      var ki := keys + FpSet(docs[..i], sha);
      var k := Fp(docs[i], sha);
      FpSetAppendOne(docs, i, sha);
      FpSetMembers(docs[..i], sha);
      assert docs[i..][0] == docs[i] && docs[i..][1..] == docs[i + 1..];
      assert k in ki <==> !IsFirstNew(keys, docs, i, sha) by {
        assert forall j :: 0 <= j < i ==> docs[..i][j] == docs[j];
      }
      AdmitFrom(keys, docs, i + 1, sha);
      if k in ki {
        assert ki == keys + FpSet(docs[..i + 1], sha);
      } else {
        assert ki + {k} == keys + FpSet(docs[..i + 1], sha);
      }
    }
  }

  /** The number admitted is the number of distinct new fingerprints in the batch. */
  lemma {:induction false} AdmitCount(keys: set<string>, docs: seq<Document>, sha: string -> string)
    ensures |Admit(keys, docs, sha).admitted| == |FpSet(docs, sha) - keys|
    decreases |docs|
  {
    if docs != [] {
      var k := Fp(docs[0], sha);
      if k in keys {
        AdmitCount(keys, docs[1..], sha);
        assert FpSet(docs, sha) - keys == FpSet(docs[1..], sha) - keys;
      } else {
        AdmitCount(keys + {k}, docs[1..], sha);
        assert FpSet(docs, sha) - keys == {k} + (FpSet(docs[1..], sha) - (keys + {k}));
      }
    }
  }

  /** A batch whose fingerprints are all keys admits nothing and changes no key. */
  lemma {:induction false} AdmitKnown(keys: set<string>, docs: seq<Document>, sha: string -> string)
    requires FpSet(docs, sha) <= keys
    ensures Admit(keys, docs, sha) == Admission(keys, [])
  {
    if docs != [] {
      AdmitKnown(keys, docs[1..], sha);
    }
  }

  /** The sources of a list of documents. */
  function Sources(docs: seq<Document>): set<string> {
    if docs == [] then {}
    else (if docs[0].meta.source.Some? then {docs[0].meta.source.value} else {}) + Sources(docs[1..])
  }

  lemma {:induction false} SourceKeyMember(docs: seq<Document>, s: string, sha: string -> string)
    requires forall i :: 0 <= i < |docs| ==> docs[i].meta.source.Some? && docs[i].meta.rowId.None?
    requires s in Sources(docs)
    ensures s + "::" in FpSet(docs, sha)
  {
    if docs[0].meta.source.value != s {
      SourceKeyMember(docs[1..], s, sha);
    } else {
      assert Fp(docs[0], sha) == s + "::" + "" == s + "::";
    }
  }

  lemma {:induction false} KeysPerSource(docs: seq<Document>, sha: string -> string)
    requires forall i :: 0 <= i < |docs| ==> docs[i].meta.source.Some? && docs[i].meta.rowId.None?
    ensures |FpSet(docs, sha)| <= |Sources(docs)|
  {
    if docs != [] {
      var s := docs[0].meta.source.value;
      assert Fp(docs[0], sha) == s + "::" + "" == s + "::";
      KeysPerSource(docs[1..], sha);
      if s in Sources(docs[1..]) {
        SourceKeyMember(docs[1..], s, sha);
        assert FpSet(docs, sha) == FpSet(docs[1..], sha);
        assert Sources(docs) == Sources(docs[1..]);
      } else {
        assert |FpSet(docs, sha)| <= |FpSet(docs[1..], sha)| + 1;
        assert |Sources(docs)| == |Sources(docs[1..])| + 1;
      }
    }
  }

  /** Without row ids, one call admits at most one chunk per distinct source. */
  lemma AdmitAtMostOnePerSource(keys: set<string>, docs: seq<Document>, sha: string -> string)
    requires forall i :: 0 <= i < |docs| ==> docs[i].meta.source.Some? && docs[i].meta.rowId.None?
    ensures |Admit(keys, docs, sha).admitted| <= |Sources(docs)|
  {
    AdmitCount(keys, docs, sha);
    KeysPerSource(docs, sha);
  }

  /** With pairwise distinct fingerprints none of which is a key, every document is admitted. */
  lemma {:induction false} AdmitAllDistinct(keys: set<string>, docs: seq<Document>, sha: string -> string)
    requires forall i :: 0 <= i < |docs| ==> Fp(docs[i], sha) !in keys
    requires forall i, j :: 0 <= i < j < |docs| ==> Fp(docs[i], sha) != Fp(docs[j], sha)
    ensures Admit(keys, docs, sha).admitted == docs
    decreases |docs|
  {
    if docs != [] {
      var k := Fp(docs[0], sha);
      assert forall i :: 0 <= i < |docs[1..]| ==> docs[1..][i] == docs[i + 1];
      AdmitAllDistinct(keys + {k}, docs[1..], sha);
    }
  }

  // ---------------------------------------------------------------- index directory

  /** What `json.loads` made of `ingested_meta.json`: no file, a parse error, a
      falsy document, an object whose "rows" is a mapping, or any other truthy
      document (whose "rows" lookup fails at the first fingerprint). */
  datatype ManifestFile = NoManifest | Unreadable | Falsy | WithRows(keys: set<string>) | WithoutRows

  /** The in-memory `_meta`: its "rows" keys, or no usable "rows" entry. */
  datatype Meta = Rows(keys: set<string>) | NoRows

  /** The constructor's reading of the manifest: a missing, unreadable or falsy
      manifest becomes empty rows. */
  function InitialMeta(f: ManifestFile): (m: Meta)
    ensures f.WithRows? ==> m == Rows(f.keys)
    ensures m.NoRows? <==> f.WithoutRows?
  {
    match f
    case WithRows(keys) => Rows(keys)
    case WithoutRows => NoRows
    case _ => Rows({})
  }

  /** `index.faiss`: absent, a store FAISS can load, or one it cannot. */
  datatype IndexFile = NoIndex | Saved(store: VectorStore) | Corrupt

  /** A write into the index directory, logged in order. */
  datatype Write = IndexWrite | ManifestWrite

  datatype Disk = Disk(index: IndexFile, manifest: ManifestFile, writes: seq<Write>)
  datatype Manager = Manager(meta: Meta, vs: Option<VectorStore>)

  /** One operation's result and the state it leaves behind. */
  datatype Step<T> = Step(result: Result<T>, disk: Disk, mgr: Manager)

  const NotLoaded := "Call load_or_create() first"
  const NoIndexNoTexts := "No FAISS index and no texts provided"
  const IndexUnloadable := "FAISS index could not be loaded"
  const EmbeddingFailed := "embedding provider failed"
  const RowsMissing := "manifest has no rows mapping"

  /** `load_or_create`: load an existing index; otherwise embed `texts` into a
      new store and save it (an empty `texts` list is an error). */
  function LoadOrCreateStep(d: Disk, m: Manager, texts: seq<string>, embedOk: bool): Step<VectorStore> {
    match d.index
    case Saved(s) => Step(Ok(s), d, m.(vs := Some(s)))
    case Corrupt => Step(Err(IndexUnloadable), d, m)
    case NoIndex =>
      if texts == [] then Step(Err(NoIndexNoTexts), d, m)
      else if !embedOk then Step(Err(EmbeddingFailed), d, m)
      else
        var s := VectorStore(texts);
        Step(Ok(s), d.(index := Saved(s), writes := d.writes + [IndexWrite]), m.(vs := Some(s)))
  }

  /** `add_documents`: admit the new documents (recording their keys in memory
      even when embedding then fails), embed them into the store, and save the
      index and then the manifest, only when something was admitted. */
  function AddStep(d: Disk, m: Manager, docs: seq<Document>, sha: string -> string, embedOk: bool): Step<nat> {
    if m.vs.None? then Step(Err(NotLoaded), d, m)
    else if m.meta.NoRows? then
      (if docs == [] then Step(Ok(0), d, m) else Step(Err(RowsMissing), d, m))
    else
      var a := Admit(m.meta.keys, docs, sha);
      var m1 := m.(meta := Rows(a.keys));
      if a.admitted == [] then Step(Ok(0), d, m1)
      else if !embedOk then Step(Err(EmbeddingFailed), d, m1)
      else
        var s := VectorStore(m.vs.value.texts + Contents(a.admitted));
        Step(Ok(|a.admitted|), Disk(Saved(s), WithRows(a.keys), d.writes + [IndexWrite, ManifestWrite]),
             Manager(Rows(a.keys), Some(s)))
  }

  /** On a loaded store with usable rows, `add_documents` reports the number of
      distinct new fingerprints, appends exactly the first-new documents' texts
      and records every fingerprint of the batch. */
  lemma AddStepAppendsNew(d: Disk, m: Manager, docs: seq<Document>, sha: string -> string)
    requires m.vs.Some? && m.meta.Rows?
    ensures var st := AddStep(d, m, docs, sha, true);
      && st.result == Ok(|FpSet(docs, sha) - m.meta.keys|)
      && st.mgr.meta == Rows(m.meta.keys + FpSet(docs, sha))
      && st.mgr.vs == Some(VectorStore(m.vs.value.texts + Contents(NewFrom(m.meta.keys, docs, 0, sha))))
  {
    AdmitCount(m.meta.keys, docs, sha);
    AdmitKeys(m.meta.keys, docs, sha);
    AdmitSelectsFirstNew(m.meta.keys, docs, sha);
    assert Contents([]) == [] && m.vs.value.texts + [] == m.vs.value.texts;
  }

  /** The directory changes only when something was admitted, and then the
      index is written before the manifest. */
  lemma AddStepWrites(d: Disk, m: Manager, docs: seq<Document>, sha: string -> string, embedOk: bool)
    ensures var st := AddStep(d, m, docs, sha, embedOk);
      && (st.result == Ok(0) || st.result.Err? ==> st.disk == d)
      && (st.result.Ok? && st.result.value > 0 ==>
            st.disk.writes == d.writes + [IndexWrite, ManifestWrite] && st.disk.index == Saved(st.mgr.vs.value))
  {
  }

  /** Adding the same batch again after a successful add admits nothing and
      leaves the directory and the manager as they were. */
  lemma AddStepTwice(d: Disk, m: Manager, docs: seq<Document>, sha: string -> string, embedOk: bool)
    requires AddStep(d, m, docs, sha, embedOk).result.Ok?
    ensures var st := AddStep(d, m, docs, sha, embedOk);
      AddStep(st.disk, st.mgr, docs, sha, embedOk) == Step(Ok(0), st.disk, st.mgr)
  {
    if m.vs.Some? && m.meta.Rows? {
      AdmitKeys(m.meta.keys, docs, sha);
      AdmitKnown(m.meta.keys + FpSet(docs, sha), docs, sha);
    }
  }

  /** `load_or_create` never overwrites an index that is already there. */
  lemma LoadNeverOverwrites(d: Disk, m: Manager, texts: seq<string>, embedOk: bool)
    requires d.index != NoIndex
    ensures LoadOrCreateStep(d, m, texts, embedOk).disk == d
  {
  }

  // ---------------------------------------------------------------- the classes

  /** The admission loop of `add_documents`. */
  method AdmitBatch(keys: set<string>, docs: seq<Document>, sha: string -> string)
    returns (rows: set<string>, newDocs: seq<Document>)
    ensures Admission(rows, newDocs) == Admit(keys, docs, sha)
  {
    rows := keys;
    newDocs := [];
    var i := 0;
    while i < |docs|
      invariant 0 <= i <= |docs|
      invariant Admit(keys, docs, sha)
             == Admission(Admit(rows, docs[i..], sha).keys, newDocs + Admit(rows, docs[i..], sha).admitted)
    {
      assert docs[i..][0] == docs[i] && docs[i..][1..] == docs[i + 1..];
      var key := Fingerprint(docs[i].content, docs[i].meta, sha);
      if key !in rows {
        rows := rows + {key};
        newDocs := newDocs + [docs[i]];
      }
      i := i + 1;
    }
    assert docs[i..] == [];
  }

  /** The index directory: `index.faiss`, `ingested_meta.json` and a ghost log
      of the writes made to them. */
  class IndexDir {
    const path: string
    var index: IndexFile
    var manifest: ManifestFile
    ghost var writes: seq<Write>

    constructor (path: string, index: IndexFile, manifest: ManifestFile)
      ensures this.path == path && this.index == index && this.manifest == manifest && writes == []
    {
      this.path := path;
      this.index := index;
      this.manifest := manifest;
      writes := [];
    }

    ghost function State(): Disk
      reads this
    {
      Disk(index, manifest, writes)
    }
  }

  class FaissManager {
    const dir: IndexDir
    const sha: string -> string
    const emb: ModelLoader.Embeddings
    var meta: Meta
    var vs: Option<VectorStore>

    /** Reads the manifest once and keeps the embeddings `load_embeddings()`
        built (see `NewFaissManager` for when it raises); no store is loaded yet. */
    constructor (dir: IndexDir, sha: string -> string, emb: ModelLoader.Embeddings)
      ensures this.dir == dir && this.sha == sha && this.emb == emb
      ensures meta == InitialMeta(dir.manifest) && vs == None
    {
      this.dir := dir;
      this.sha := sha;
      this.emb := emb;
      meta := InitialMeta(dir.manifest);
      vs := None;
    }

    function Mgr(): Manager
      reads this
    {
      Manager(meta, vs)
    }

    predicate Exists()
      reads this, dir
    {
      !dir.index.NoIndex?
    }

    method LoadOrCreate(texts: seq<string>, embedOk: bool) returns (r: Result<VectorStore>)
      modifies this, dir
      ensures Step(r, dir.State(), Mgr()) == LoadOrCreateStep(old(dir.State()), old(Mgr()), texts, embedOk)
    {
      if Exists() {
        if dir.index.Corrupt? {
          return Err(IndexUnloadable);
        }
        vs := Some(dir.index.store);
        return Ok(vs.value);
      }
      if texts == [] {
        return Err(NoIndexNoTexts);
      }
      if !embedOk {
        return Err(EmbeddingFailed);
      }
      var s := VectorStore(texts);
      vs := Some(s);
      dir.index := Saved(s);
      dir.writes := dir.writes + [IndexWrite];
      r := Ok(s);
    }

    method AddDocuments(docs: seq<Document>, embedOk: bool) returns (r: Result<nat>)
      modifies this, dir
      ensures Step(r, dir.State(), Mgr()) == AddStep(old(dir.State()), old(Mgr()), docs, sha, embedOk)
    {
      if vs.None? {
        return Err(NotLoaded);
      }
      if meta.NoRows? {
        if docs == [] {
          return Ok(0);
        }
        return Err(RowsMissing);
      }
      var rows, newDocs := AdmitBatch(meta.keys, docs, sha);
      meta := Rows(rows);
      if newDocs == [] {
        return Ok(0);
      }
      if !embedOk {
        return Err(EmbeddingFailed);
      }
      var s := VectorStore(vs.value.texts + Contents(newDocs));
      vs := Some(s);
      dir.index := Saved(s);
      dir.writes := dir.writes + [IndexWrite];
      dir.manifest := WithRows(meta.keys);
      dir.writes := dir.writes + [ManifestWrite];
      r := Ok(|newDocs|);
    }
  }

  /** `FaissManager(index_dir, model_loader)`: `__init__` reads the manifest
      and then calls `load_embeddings()`, whose outcome is `loaded`; when that
      raises, no manager is made and the exception propagates. */
  method NewFaissManager(dir: IndexDir, sha: string -> string, loaded: ModelLoader.Loaded<ModelLoader.Embeddings>)
    returns (r: Option<FaissManager>)
    ensures r.None? <==> loaded.Raised?
    ensures r.Some? ==> && fresh(r.value) && r.value.dir == dir && r.value.sha == sha && r.value.emb == loaded.value
                        && r.value.meta == InitialMeta(dir.manifest) && r.value.vs == None
  {
    if loaded.Raised? {
      return None;
    }
    var fm := new FaissManager(dir, sha, loaded.value);
    r := Some(fm);
  }

  // ---------------------------------------------------------------- one build

  /** `build_retriever`'s use of a fresh manager: seed a store with every chunk
      text when there is no index, then add the chunks. */
  function BuildStep(d: Disk, chunks: seq<Document>, sha: string -> string, embedOk: bool): Step<nat> {
    var s1 := LoadOrCreateStep(d, Manager(InitialMeta(d.manifest), None), Contents(chunks), embedOk);
    if s1.result.Err? then Step(Err(s1.result.msg), s1.disk, s1.mgr)
    else AddStep(s1.disk, s1.mgr, chunks, sha, embedOk)
  }

  /** A first build into an empty directory stores every chunk text and then,
      a second time, the text of each chunk with a first-new fingerprint. */
  lemma FirstBuildStoresTwice(manifest: ManifestFile, chunks: seq<Document>, sha: string -> string)
    requires chunks != [] && InitialMeta(manifest) == Rows({})
    ensures var st := BuildStep(Disk(NoIndex, manifest, []), chunks, sha, true);
      && st.result == Ok(|FpSet(chunks, sha)|)
      && st.disk.index == Saved(VectorStore(Contents(chunks) + Contents(NewFrom({}, chunks, 0, sha))))
  {
    FpSetMembers(chunks, sha);
    assert Fp(chunks[0], sha) in FpSet(chunks, sha);
    AddStepAppendsNew(Disk(NoIndex, manifest, [IndexWrite]), Manager(Rows({}), Some(VectorStore(Contents(chunks)))), chunks, sha);
    assert FpSet(chunks, sha) - {} == FpSet(chunks, sha);
  }

  /** With pairwise distinct fingerprints and no keys, every document is new. */
  lemma DistinctAllNew(docs: seq<Document>, sha: string -> string)
    requires forall i, j :: 0 <= i < j < |docs| ==> Fp(docs[i], sha) != Fp(docs[j], sha)
    ensures NewFrom({}, docs, 0, sha) == docs
  {
    AdmitAllDistinct({}, docs, sha);
    AdmitSelectsFirstNew({}, docs, sha);
  }

  /** With pairwise distinct fingerprints, that first build holds every chunk text twice. */
  lemma FirstBuildDuplicates(manifest: ManifestFile, chunks: seq<Document>, sha: string -> string)
    requires chunks != [] && InitialMeta(manifest) == Rows({})
    requires forall i, j :: 0 <= i < j < |chunks| ==> Fp(chunks[i], sha) != Fp(chunks[j], sha)
    ensures BuildStep(Disk(NoIndex, manifest, []), chunks, sha, true).disk.index
         == Saved(VectorStore(Contents(chunks) + Contents(chunks)))
  {
    DistinctAllNew(chunks, sha);
    FirstBuildStoresTwice(manifest, chunks, sha);
  }

  /** Building again from the same chunks after a successful build adds nothing
      and writes nothing. */
  lemma RebuildAddsNothing(d: Disk, chunks: seq<Document>, sha: string -> string, embedOk: bool)
    requires BuildStep(d, chunks, sha, embedOk).result.Ok?
    ensures var st := BuildStep(d, chunks, sha, embedOk);
      BuildStep(st.disk, chunks, sha, embedOk).result == Ok(0) && BuildStep(st.disk, chunks, sha, embedOk).disk == st.disk
  {
    var s1 := LoadOrCreateStep(d, Manager(InitialMeta(d.manifest), None), Contents(chunks), embedOk);
    var st := AddStep(s1.disk, s1.mgr, chunks, sha, embedOk);
    assert st.disk.index.Saved?;
    var keys1 := if s1.mgr.meta.Rows? then s1.mgr.meta.keys else {};
    if s1.mgr.meta.Rows? {
      AdmitKeys(keys1, chunks, sha);
      var a := Admit(keys1, chunks, sha);
      if a.admitted == [] {
        AdmitCount(keys1, chunks, sha);
        assert FpSet(chunks, sha) - keys1 == {};
        forall k | k in FpSet(chunks, sha) ensures k in keys1 {
          assert k !in FpSet(chunks, sha) - keys1;
        }
        AdmitKnown(keys1, chunks, sha);
        assert st.disk == s1.disk;
      }
      assert InitialMeta(st.disk.manifest).Rows?;
      AdmitKnown(InitialMeta(st.disk.manifest).keys, chunks, sha);
    }
  }
}
