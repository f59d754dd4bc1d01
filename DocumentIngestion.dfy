/** src/document_ingestion/data_ingestion.py: the helpers around the FAISS
    manager and `ChatIngestor`, which saves uploads, loads them as documents,
    splits them and indexes the chunks. */
module DocumentIngestion {
  import opened Wrappers
  import opened PyText
  import opened SessionIds
  import opened Portal
  import opened FaissIndex
  import opened DocumentLoading
  import ModelLoader

  /** Listed as supported by the module, but read by nothing: `load_documents`
      reads `.md` and skips `.docx`. */
  const SupportedExtensions: set<string> := {".pdf", ".docx", ".txt"}

  /** `generate_session_id(prefix)`: the prefix, `_` and the first 8 hex digits of a uuid4. */
  function GenerateSessionId(prefix: string, hex: string): (id: string)
    requires IsHexToken(hex, 8)
    ensures |id| == |prefix| + 9 && StartsWith(id, prefix + "_") && EndsWith(id, hex)
  {
    ShortId(prefix, hex)
  }

  // ---------------------------------------------------------------- saving uploads

  /** An uploaded object: its `name` attribute when it has one, and its bytes. */
  datatype Upload = Upload(name: Option<string>, data: Bytes)

  /** The file name used: `name`, or `upload_` and 8 hex digits of a fresh uuid. */
  function UploadName(u: Upload, hex: string): string {
    if u.name.Some? then u.name.value else "upload_" + hex
  }

  /** Where each upload is written, with the bytes written there, in order. */
  function Placed(uploads: seq<Upload>, tokens: seq<string>, outDir: string): (ws: seq<(string, Bytes)>)
    requires |tokens| == |uploads|
    ensures |ws| == |uploads|
  {
    seq(|uploads|, i requires 0 <= i < |uploads| => (OsPathJoin(outDir, UploadName(uploads[i], tokens[i])), uploads[i].data))
  }

  /** Writing files one after another: the paths written, in order, and the
      directory tree afterwards. */
  function Store(ws: seq<(string, Bytes)>, fs: Files): (r: (seq<string>, Files))
    ensures |r.0| == |ws|
    decreases |ws|
  {
    if ws == [] then ([], fs)
    else
      var n := |ws| - 1;
      var prev := Store(ws[..n], fs);
      (prev.0 + [ws[n].0], prev.1[ws[n].0 := ws[n].1])
  }

  /** The paths written by saving the uploads, in order, and the directory tree afterwards. */
  function SaveAll(uploads: seq<Upload>, tokens: seq<string>, outDir: string, fs: Files): (seq<string>, Files)
    requires |tokens| == |uploads|
  {
    Store(Placed(uploads, tokens, outDir), fs)
  }

  /** The `i`-th path written is the `i`-th target. */
  lemma {:induction false} StorePaths(ws: seq<(string, Bytes)>, fs: Files, i: nat)
    requires i < |ws|
    ensures Store(ws, fs).0[i] == ws[i].0
    decreases |ws|
  {
    var n := |ws| - 1;
    if i < n {
      StorePaths(ws[..n], fs, i);
    }
  }

  /** Upload `i` is written to its name joined under the output directory. */
  lemma SaveAllPaths(uploads: seq<Upload>, tokens: seq<string>, outDir: string, fs: Files, i: nat)
    requires |tokens| == |uploads| && i < |uploads|
    ensures |SaveAll(uploads, tokens, outDir, fs).0| == |uploads|
    ensures SaveAll(uploads, tokens, outDir, fs).0[i] == OsPathJoin(outDir, UploadName(uploads[i], tokens[i]))
  {
    StorePaths(Placed(uploads, tokens, outDir), fs, i);
  }

  /** Writing changes exactly the written paths, and every other file is as
      it was. */
  lemma {:induction false} StoreFiles(ws: seq<(string, Bytes)>, fs: Files)
    ensures var (paths, fs') := Store(ws, fs);
      && (forall p :: p in fs' <==> p in fs || p in paths)
      && (forall p :: p in fs && p !in paths ==> fs'[p] == fs[p])
    decreases |ws|
  {
    if ws != [] {
      var n := |ws| - 1;
      StoreFiles(ws[..n], fs);
    }
  }

  /** Saving writes exactly the returned paths, and every other file is as
      it was. */
  lemma SaveAllFiles(uploads: seq<Upload>, tokens: seq<string>, outDir: string, fs: Files)
    requires |tokens| == |uploads|
    ensures var (paths, fs') := SaveAll(uploads, tokens, outDir, fs);
      && (forall p :: p in fs' <==> p in fs || p in paths)
      && (forall p :: p in fs && p !in paths ==> fs'[p] == fs[p])
  {
    StoreFiles(Placed(uploads, tokens, outDir), fs);
  }

  /** No later path in the list is the same as the one at `i`. */
  predicate LastWriteAt(paths: seq<string>, i: int)
    requires 0 <= i < |paths|
  {
    forall j :: i < j < |paths| ==> paths[j] != paths[i]
  }

  /** A written path holds the bytes of the last write to it. */
  lemma {:induction false} StoreLastWriter(ws: seq<(string, Bytes)>, fs: Files, i: nat)
    requires i < |ws|
    requires forall j :: i < j < |ws| ==> ws[j].0 != ws[i].0
    ensures ws[i].0 in Store(ws, fs).1 && Store(ws, fs).1[ws[i].0] == ws[i].1
    decreases |ws|
  {
    var n := |ws| - 1;
    if i < n {
      StoreLastWriter(ws[..n], fs, i);
    }
  }

  /** A saved path holds the bytes of the last upload written there. */
  lemma SaveAllLastWriter(uploads: seq<Upload>, tokens: seq<string>, outDir: string, fs: Files, i: nat)
    requires |tokens| == |uploads| && i < |uploads|
    requires LastWriteAt(SaveAll(uploads, tokens, outDir, fs).0, i)
    ensures var (paths, fs') := SaveAll(uploads, tokens, outDir, fs);
      paths[i] in fs' && fs'[paths[i]] == uploads[i].data
  {
    var ws := Placed(uploads, tokens, outDir);
    var paths := SaveAll(uploads, tokens, outDir, fs).0;
    forall j | 0 <= j < |ws| ensures paths[j] == ws[j].0 {
      StorePaths(ws, fs, j);
    }
    StoreLastWriter(ws, fs, i);
  }

  /** `save_uploaded_files(uploaded_files, out_dir)`; `tokens[i]` is the uuid hex
      drawn for upload `i` (the default name is built even when unused). */
  method SaveUploadedFiles(uploads: seq<Upload>, tokens: seq<string>, outDir: string, fs: Files)
    returns (paths: seq<string>, fs': Files)
    requires |tokens| == |uploads|
    ensures (paths, fs') == SaveAll(uploads, tokens, outDir, fs)
  {
    ghost var ws := Placed(uploads, tokens, outDir);
    paths := [];
    fs' := fs;
    var i := 0;
    while i < |uploads|
      invariant 0 <= i <= |uploads|
      invariant (paths, fs') == Store(ws[..i], fs)
    {
      assert ws[..i + 1][..i] == ws[..i];
      var fname := UploadName(uploads[i], tokens[i]);
      var dest := OsPathJoin(outDir, fname);
      assert ws[i] == (dest, uploads[i].data);
      fs' := fs'[dest := uploads[i].data];
      paths := paths + [dest];
      i := i + 1;
    }
    assert ws[..i] == ws;
  }

  // ---------------------------------------------------------------- ChatIngestor

  /** The session id and directories `ChatIngestor` resolves on construction. */
  datatype ChatIngestor = ChatIngestor(useSession: bool, sessionId: string, tempDir: string, faissDir: string)

  /** `_resolve_dir(base)`: `base / session_id` when session directories are on, else `base`. */
  function ResolveDir(base: string, useSession: bool, sessionId: string): string {
    if useSession then OsPathJoin(base, sessionId) else base
  }

  /** With session directories on, distinct relative session ids under one base
      get distinct directories; with them off, every session shares the base. */
  lemma ResolveDirIsolates(base: string, sid: string, sid': string)
    requires !IsAbsolute(sid) && !IsAbsolute(sid') && sid != sid'
    ensures ResolveDir(base, true, sid) != ResolveDir(base, true, sid')
    ensures ResolveDir(base, false, sid) == ResolveDir(base, false, sid') == base
  {
    OsPathJoinInjective(base, sid, sid');
  }

  /** `ChatIngestor(temp_base, faiss_base, use_session_dirs, session_id)`: an
      empty or missing session id is replaced by a generated one. */
  function NewChatIngestor(tempBase: string, faissBase: string, useSessionDirs: bool,
                           sessionId: Option<string>, hex: string): (c: ChatIngestor)
    requires IsHexToken(hex, 8)
    ensures c.sessionId != ""
    ensures sessionId.Some? && sessionId.value != "" ==> c.sessionId == sessionId.value
    ensures c.tempDir == ResolveDir(tempBase, useSessionDirs, c.sessionId)
    ensures c.faissDir == ResolveDir(faissBase, useSessionDirs, c.sessionId)
  {
    var sid := if sessionId.Some? && sessionId.value != "" then sessionId.value else GenerateSessionId("session", hex);
    ChatIngestor(useSessionDirs, sid, ResolveDir(tempBase, useSessionDirs, sid), ResolveDir(faissBase, useSessionDirs, sid))
  }

  const DefaultChunkSize: nat := 1000
  const DefaultChunkOverlap: nat := 200
  const DefaultK: nat := 5
  const BuildFailed := "Failed to build retriever"

  /** `build_retriever`: save the uploads, load them, split them with
      `split(docs, chunk_size, chunk_overlap)`, seed or load the index with a
      fresh manager and add the chunks. `emb` is what the manager's
      `load_embeddings()` yields for the ingestor's model loader. Any failure,
      including loading no documents or embeddings that do not load, is
      reported as "Failed to build retriever"; uploads already saved stay on
      disk. */
  method BuildRetriever(ing: ChatIngestor, uploads: seq<Upload>, tokens: seq<string>, fs: Files, rd: Readers,
                        split: (seq<Document>, nat, nat) -> seq<Document>, chunkSize: nat, chunkOverlap: nat, k: nat,
                        index: IndexDir, sha: string -> string, emb: ModelLoader.Loaded<ModelLoader.Embeddings>, embedOk: bool)
    returns (r: Result<Retriever>, fs': Files)
    requires |tokens| == |uploads|
    requires index.path == ing.faissDir
    modifies index
    ensures fs' == SaveAll(uploads, tokens, ing.tempDir, fs).1
    ensures var docs := LoadAll(SaveAll(uploads, tokens, ing.tempDir, fs).0, fs', rd);
      && (docs.Err? || docs.value == [] || emb.Raised? ==> r == Err(BuildFailed) && index.State() == old(index.State()))
      && (docs.Ok? && docs.value != [] && emb.Built? ==>
            var st := BuildStep(old(index.State()), split(docs.value, chunkSize, chunkOverlap), sha, embedOk);
            && index.State() == st.disk
            && r == (if st.result.Ok? then Ok(Retriever(ing.faissDir, k)) else Err(BuildFailed)))
  {
    var paths;
    paths, fs' := SaveUploadedFiles(uploads, tokens, ing.tempDir, fs);
    var docs := LoadDocuments(paths, fs', rd);
    if docs.Err? || docs.value == [] {
      return Err(BuildFailed), fs';
    }
    var chunks := split(docs.value, chunkSize, chunkOverlap);
    var fm := NewFaissManager(index, sha, emb);
    if fm.None? {
      return Err(BuildFailed), fs';
    }
    var vs := fm.value.LoadOrCreate(Contents(chunks), embedOk);
    if vs.Err? {
      return Err(BuildFailed), fs';
    }
    var added := fm.value.AddDocuments(chunks, embedOk);
    if added.Err? {
      return Err(BuildFailed), fs';
    }
    r := Ok(Retriever(ing.faissDir, k));
  }
}
