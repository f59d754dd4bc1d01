/** src/multidoc_chat/data_ingestion.py: `DocumentIngestor`, which saves a batch
    of uploads into a per-session folder, loads each with the loader its
    extension selects, splits the documents and indexes the chunks. The
    loaders, the splitter and the embedding step are parameters. */
module MultiDocIngestion {
  import opened Wrappers
  import opened PyText
  import opened SessionIds
  import opened Portal
  import DocumentLoading

  /** `DocumentIngestor.SUPPORTED_FILE_TYPES`. */
  const SupportedFileTypes: set<string> := {".pdf", ".docx", ".txt", ".md"}

  const ChunkSize: nat := 1000
  const ChunkOverlap: nat := 100
  const TopK: nat := 5

  const InitError := "Initialization error"
  const IngestError := "Ingestion error"

  /** The folders a `DocumentIngestor` resolves on construction. */
  datatype DocumentIngestor = DocumentIngestor(
    tempDir: string, faissDir: string, sessionId: string,
    sessionTempDir: string, sessionFaissDir: string)

  /** `DocumentIngestor(temp_dir, faiss_dir, session_id)`: a missing or empty
      session id is replaced by `session_<UTC stamp>_<8 hex digits>`, and the
      session folders sit under the two base folders. `dirsOk` is whether the
      four `mkdir` calls succeed, and `loaderOk` whether `ModelLoader()` (its
      `load_config()`) does; either failure is re-raised as "Initialization error". */
  function NewDocumentIngestor(tempDir: string, faissDir: string, sessionId: Option<string>,
                               now: Clock, hex: string, dirsOk: bool, loaderOk: bool): (r: Result<DocumentIngestor>)
    requires ValidClock(now) && IsHexToken(hex, 8)
    ensures !(dirsOk && loaderOk) <==> r == Err(InitError)
    ensures r.Ok? ==>
      && r.value.tempDir == tempDir && r.value.faissDir == faissDir
      && r.value.sessionId != ""
      && (sessionId.Some? && sessionId.value != "" ==> r.value.sessionId == sessionId.value)
      && (sessionId.None? || sessionId.value == "" ==> r.value.sessionId == TimedId("session", now, hex))
      && r.value.sessionTempDir == OsPathJoin(tempDir, r.value.sessionId)
      && r.value.sessionFaissDir == OsPathJoin(faissDir, r.value.sessionId)
  {
    if !dirsOk || !loaderOk then Err(InitError)
    else
      var sid := if sessionId.Some? && sessionId.value != "" then sessionId.value else TimedId("session", now, hex);
      Ok(DocumentIngestor(tempDir, faissDir, sid, OsPathJoin(tempDir, sid), OsPathJoin(faissDir, sid)))
  }

  /** Two ingestors whose ids were generated from different clock readings or
      tokens work in different session folders. */
  lemma GeneratedSessionsDiffer(tempDir: string, faissDir: string, t: Clock, h: string, t': Clock, h': string)
    requires ValidClock(t) && IsHexToken(h, 8) && ValidClock(t') && IsHexToken(h', 8)
    requires (t, h) != (t', h')
    ensures var a := NewDocumentIngestor(tempDir, faissDir, None, t, h, true, true);
      var b := NewDocumentIngestor(tempDir, faissDir, None, t', h', true, true);
      && a.value.sessionTempDir != b.value.sessionTempDir
      && a.value.sessionFaissDir != b.value.sessionFaissDir
  {
    var sid, sid' := TimedId("session", t, h), TimedId("session", t', h');
    if sid == sid' {
      TimedIdInjective("session", t, h, "session", t', h');
    }
    assert sid[0] == 's' && sid'[0] == 's';
    OsPathJoinInjective(tempDir, sid, sid');
    OsPathJoinInjective(faissDir, sid, sid');
  }

  /** The `name` attribute of an uploaded file object: absent, present but
      `None`, or a string. */
  datatype NameAttr = Missing | NullName | Name(s: string)

  datatype FileUpload = FileUpload(name: NameAttr, data: Bytes)

  /** `getattr(uploaded_file, "name", "upload")`, for an upload whose name is not `None`. */
  function FileName(u: FileUpload): string
    requires !u.name.NullName?
  {
    if u.name.Missing? then "upload" else u.name.s
  }

  /** `Path(file_name).suffix.lower()`. */
  function Ext(u: FileUpload): string
    requires !u.name.NullName?
  {
    Lower(Suffix(FileName(u)))
  }

  /** The LangChain loaders `ingest_files` chooses between. */
  datatype LoaderKind = PdfLoader | DocxLoader | TextLoader

  /** The loader selected by an extension, or `None` for the fallback branch. */
  function LoaderFor(ext: string): Option<LoaderKind> {
    if ext == ".pdf" then Some(PdfLoader)
    else if ext == ".docx" then Some(DocxLoader)
    else if ext == ".txt" || ext == ".md" then Some(TextLoader)
    else None
  }

  /** Exactly the supported extensions have a loader, so the fallback branch
      after the extension guard is never taken. */
  lemma LoaderCoverage(ext: string)
    ensures ext in SupportedFileTypes <==> LoaderFor(ext).Some?
  {
  }

  /** `f"{uuid.uuid4().hex[:8]}{ext}"` inside the session folder. */
  function TempPath(dir: string, token: string, ext: string): string {
    OsPathJoin(dir, token + ext)
  }

  /** A temporary file keeps the extension its upload was accepted for, and
      distinct tokens give distinct temporary files. */
  lemma TempPathKeepsType(dir: string, token: string, ext: string, token': string)
    requires dir != "" && !EndsWithSep(dir)
    requires IsHexToken(token, 8) && IsHexToken(token', 8) && token != token'
    requires ext in SupportedFileTypes
    ensures Suffix(TempPath(dir, token, ext)) == ext
    ensures LoaderFor(Suffix(TempPath(dir, token, ext))) == LoaderFor(ext)
    ensures TempPath(dir, token, ext) != TempPath(dir, token', ext)
  {
    assert token[0] != '/' && token'[0] != '/';
    OsPathJoinChild(dir, token + ext);
    assert '/' !in token && '.' !in token by {
      forall k | 0 <= k < |token| ensures token[k] != '/' && token[k] != '.' {
        assert IsDigit(token[k]) || 'a' <= token[k] <= 'f';
      }
    }
    assert '.' !in ext[1..];
    SuffixOfChild(dir, token, ext);
    assert (token + ext)[..8] == token && (token' + ext)[..8] == token';
    assert (token + ext)[0] != '/' && (token' + ext)[0] != '/';
    OsPathJoinInjective(dir, token + ext, token' + ext);
  }

  /** What `ingest_files` has done after some uploads: whether it is still
      running, the documents gathered, the directory tree and the temporary
      files written. */
  datatype Ingest = Ingest(ok: bool, docs: seq<Document>, fs: Files, saved: seq<string>)

  /** The extension `ingest_files` reads off an upload, or `None` when its name
      is `None` and `Path` raises. */
  function ExtOf(u: FileUpload): Option<string> {
    if u.name.NullName? then None else Some(Ext(u))
  }

  /** One pass of the loop of `ingest_files` over an upload with extension
      `ext` and contents `data`, drawing `token` if it is accepted;
      `load(kind, path, bytes)` is the loader's `load()` on the saved file,
      `None` when it raises. A loader that raises stops the loop after its file
      has been written. */
  function IngestStep(prev: Ingest, ext: Option<string>, data: Bytes, token: string, dir: string,
                      load: (LoaderKind, string, Bytes) -> Option<seq<Document>>): Ingest {
    if !prev.ok then prev
    else if ext.None? then Ingest(false, prev.docs, prev.fs, prev.saved)
    else if ext.value !in SupportedFileTypes then prev
    else
      var p := TempPath(dir, token, ext.value);
      var loaded := Loaded(ext.value, p, data, load);
      Ingest(loaded.Some?, if loaded.Some? then prev.docs + loaded.value else prev.docs,
             prev.fs[p := data], prev.saved + [p])
  }

  /** The documents the loader for `ext` reads from the file at `p`; no
      documents when no loader matches. */
  function Loaded(ext: string, p: string, data: Bytes,
                  load: (LoaderKind, string, Bytes) -> Option<seq<Document>>): Option<seq<Document>> {
    match LoaderFor(ext)
    case None => Some([])
    case Some(kind) => load(kind, p, data)
  }

  /** What the loop of `ingest_files` reads off one upload: its extension (see
      `ExtOf`) and its bytes. */
  datatype Item = Item(ext: Option<string>, data: Bytes)

  function Items(uploads: seq<FileUpload>): (items: seq<Item>)
    ensures |items| == |uploads|
  {
    seq(|uploads|, i requires 0 <= i < |uploads| => Item(ExtOf(uploads[i]), uploads[i].data))
  }

  /** The loop over the items, in order; `tokens[i]` is the token drawn if
      item `i` is accepted. */
  function Run(items: seq<Item>, tokens: seq<string>, dir: string, fs: Files,
               load: (LoaderKind, string, Bytes) -> Option<seq<Document>>): Ingest
    requires |tokens| == |items|
    decreases |items|
  {
    if items == [] then Ingest(true, [], fs, [])
    else
      var n := |items| - 1;
      IngestStep(Run(items[..n], tokens[..n], dir, fs, load), items[n].ext, items[n].data, tokens[n], dir, load)
  }

  /** The loop of `ingest_files` over the uploads. */
  function IngestSpec(uploads: seq<FileUpload>, tokens: seq<string>, dir: string, fs: Files,
                      load: (LoaderKind, string, Bytes) -> Option<seq<Document>>): Ingest
    requires |tokens| == |uploads|
  {
    Run(Items(uploads), tokens, dir, fs, load)
  }

  /** Once the loop has stopped, the remaining uploads change nothing. */
  lemma {:induction false} IngestHalts(items: seq<Item>, tokens: seq<string>, dir: string, fs: Files,
                                       load: (LoaderKind, string, Bytes) -> Option<seq<Document>>, m: nat)
    requires |tokens| == |items| && m <= |items|
    requires !Run(items[..m], tokens[..m], dir, fs, load).ok
    ensures Run(items, tokens, dir, fs, load) == Run(items[..m], tokens[..m], dir, fs, load)
    decreases |items|
  {
    if m == |items| {
      assert items[..m] == items && tokens[..m] == tokens;
    } else {
      var n := |items| - 1;
      assert items[..n][..m] == items[..m] && tokens[..n][..m] == tokens[..m];
      IngestHalts(items[..n], tokens[..n], dir, fs, load, m);
    }
  }

  /** The loop adds exactly its temporary files to the directory tree. */
  lemma {:induction false} IngestKeys(items: seq<Item>, tokens: seq<string>, dir: string, fs: Files,
                                      load: (LoaderKind, string, Bytes) -> Option<seq<Document>>)
    requires |tokens| == |items|
    ensures var st := Run(items, tokens, dir, fs, load);
      st.fs.Keys == fs.Keys + (set p | p in st.saved)
    decreases |items|
  {
    if items != [] {
      var n := |items| - 1;
      IngestKeys(items[..n], tokens[..n], dir, fs, load);
      var prev := Run(items[..n], tokens[..n], dir, fs, load);
      var st := Run(items, tokens, dir, fs, load);
      if st.saved != prev.saved {
        var p := TempPath(dir, tokens[n], items[n].ext.value);
        assert st.saved == prev.saved + [p] && st.fs == prev.fs[p := items[n].data];
        assert (set q | q in st.saved) == (set q | q in prev.saved) + {p};
      }
    }
  }

  /** The loop writes only its temporary files: every other file keeps its
      contents and every temporary file holds the bytes of some upload. */
  lemma {:induction false} IngestWrites(items: seq<Item>, tokens: seq<string>, dir: string, fs: Files,
                                        load: (LoaderKind, string, Bytes) -> Option<seq<Document>>)
    requires |tokens| == |items|
    ensures var st := Run(items, tokens, dir, fs, load);
      && (forall q :: q in fs && q !in st.saved ==> q in st.fs && st.fs[q] == fs[q])
      && (forall q :: q in st.saved ==> q in st.fs && st.fs[q] in Datas(items))
    decreases |items|
  {
    if items != [] {
      var n := |items| - 1;
      IngestWrites(items[..n], tokens[..n], dir, fs, load);
      IngestKeys(items[..n], tokens[..n], dir, fs, load);
      assert items == items[..n] + [items[n]];
      DatasAppend(items[..n], items[n]);
    }
  }

  /** Distinct tokens give distinct temporary files, whatever their extensions. */
  lemma TempPathsDiffer(dir: string, token: string, ext: string, token': string, ext': string)
    requires IsHexToken(token, 8) && IsHexToken(token', 8) && token != token'
    ensures TempPath(dir, token, ext) != TempPath(dir, token', ext')
  {
    assert (token + ext)[..8] == token && (token' + ext')[..8] == token';
    assert (token + ext)[0] == token[0] != '/' && (token' + ext')[0] == token'[0] != '/';
    OsPathJoinInjective(dir, token + ext, token' + ext');
  }

  /** A pass that does not write `p` leaves `p` saved with its contents. */
  lemma StepKeepsFile(prev: Ingest, ext: Option<string>, data: Bytes, token: string, dir: string,
                      load: (LoaderKind, string, Bytes) -> Option<seq<Document>>, p: string)
    requires p in prev.saved && p in prev.fs
    requires prev.ok && ext.Some? && ext.value in SupportedFileTypes ==> TempPath(dir, token, ext.value) != p
    ensures var st := IngestStep(prev, ext, data, token, dir, load);
      p in st.saved && p in st.fs && st.fs[p] == prev.fs[p]
  {
  }

  /** An upload the loop reaches while still running and accepts is written
      to its own temporary file with its own bytes, and that file is listed as
      saved, provided no later upload draws the same token. */
  lemma {:induction false} IngestWritesOwnBytes(items: seq<Item>, tokens: seq<string>, dir: string, fs: Files,
                                                load: (LoaderKind, string, Bytes) -> Option<seq<Document>>, i: nat)
    requires |tokens| == |items| && i < |items|
    requires IsHexToken(tokens[i], 8)
    requires forall j :: i < j < |tokens| ==> IsHexToken(tokens[j], 8) && tokens[j] != tokens[i]
    requires Run(items[..i], tokens[..i], dir, fs, load).ok
    requires items[i].ext.Some? && items[i].ext.value in SupportedFileTypes
    ensures var p := TempPath(dir, tokens[i], items[i].ext.value);
      var st := Run(items, tokens, dir, fs, load);
      p in st.saved && p in st.fs && st.fs[p] == items[i].data
    decreases |items|
  {
    var n := |items| - 1;
    var its, tks := items[..n], tokens[..n];
    var p := TempPath(dir, tokens[i], items[i].ext.value);
    var prev := Run(its, tks, dir, fs, load);
    assert Run(items, tokens, dir, fs, load) == IngestStep(prev, items[n].ext, items[n].data, tokens[n], dir, load);
    if i == n {
      assert items[..i] == its && tokens[..i] == tks;
    } else {
      assert its[..i] == items[..i] && tks[..i] == tokens[..i];
      assert its[i] == items[i] && tks[i] == tokens[i];
      assert forall j :: i < j < |tks| ==> tks[j] == tokens[j];
      IngestWritesOwnBytes(its, tks, dir, fs, load, i);
      if prev.ok && items[n].ext.Some? && items[n].ext.value in SupportedFileTypes {
        TempPathsDiffer(dir, tokens[i], items[i].ext.value, tokens[n], items[n].ext.value);
      }
      StepKeepsFile(prev, items[n].ext, items[n].data, tokens[n], dir, load, p);
    }
  }

  /** What one upload contributes to the gathered documents when the loop
      reaches it: a `None` name raises, an unsupported extension gives
      nothing, and a supported one gives what its loader reads from its
      temporary file, or raises. */
  function ItemDocs(it: Item, token: string, dir: string,
                    load: (LoaderKind, string, Bytes) -> Option<seq<Document>>): Result<seq<Document>> {
    if it.ext.None? then Err(IngestError)
    else if it.ext.value !in SupportedFileTypes then Ok([])
    else match Loaded(it.ext.value, TempPath(dir, token, it.ext.value), it.data, load)
      case None => Err(IngestError)
      case Some(ds) => Ok(ds)
  }

  /** Each upload's contribution, in upload order. */
  function ItemLoads(items: seq<Item>, tokens: seq<string>, dir: string,
                     load: (LoaderKind, string, Bytes) -> Option<seq<Document>>): (rs: seq<Result<seq<Document>>>)
    requires |tokens| == |items|
    ensures |rs| == |items|
  {
    seq(|items|, i requires 0 <= i < |items| => ItemDocs(items[i], tokens[i], dir, load))
  }

  /** The loop keeps running exactly when every upload's contribution is read,
      and then its documents are those contributions concatenated in upload
      order (see `DocumentLoading.GatherConcatenates`). */
  lemma {:induction false} IngestGathers(items: seq<Item>, tokens: seq<string>, dir: string, fs: Files,
                                         load: (LoaderKind, string, Bytes) -> Option<seq<Document>>)
    requires |tokens| == |items|
    ensures var st := Run(items, tokens, dir, fs, load);
      var g := DocumentLoading.Gather(ItemLoads(items, tokens, dir, load));
      && (st.ok <==> g.Ok?)
      && (st.ok ==> st.docs == g.value)
    decreases |items|
  {
    if items != [] {
      var n := |items| - 1;
      IngestGathers(items[..n], tokens[..n], dir, fs, load);
      assert ItemLoads(items, tokens, dir, load)[..n] == ItemLoads(items[..n], tokens[..n], dir, load);
    }
  }

  /** Every path in the list has a supported suffix. */
  predicate AllSupported(paths: seq<string>)
    decreases |paths|
  {
    paths == [] || (AllSupported(paths[..|paths| - 1]) && Suffix(paths[|paths| - 1]) in SupportedFileTypes)
  }

  /** Every temporary file carries a supported extension, so a later look at
      its suffix picks the loader its upload was accepted for. */
  lemma {:induction false} IngestSavedTypes(items: seq<Item>, tokens: seq<string>, dir: string, fs: Files,
                                            load: (LoaderKind, string, Bytes) -> Option<seq<Document>>)
    requires |tokens| == |items|
    requires dir != "" && !EndsWithSep(dir)
    requires forall i :: 0 <= i < |tokens| ==> IsHexToken(tokens[i], 8)
    ensures AllSupported(Run(items, tokens, dir, fs, load).saved)
    decreases |items|
  {
    if items != [] {
      var n := |items| - 1;
      var prev := Run(items[..n], tokens[..n], dir, fs, load);
      IngestSavedTypes(items[..n], tokens[..n], dir, fs, load);
      var ext := items[n].ext;
      if prev.ok && ext.Some? && ext.value in SupportedFileTypes {
        var other := if tokens[n] == "00000000" then "00000001" else "00000000";
        TempPathKeepsType(dir, tokens[n], ext.value, other);
        var p := TempPath(dir, tokens[n], ext.value);
        assert (prev.saved + [p])[..|prev.saved|] == prev.saved;
      }
    }
  }

  /** The contents carried by a list of items. */
  function Datas(items: seq<Item>): set<Bytes> {
    set i | 0 <= i < |items| :: items[i].data
  }

  lemma DatasAppend(a: seq<Item>, u: Item)
    ensures Datas(a + [u]) == Datas(a) + {u.data}
  {
    var b := a + [u];
    assert forall i :: 0 <= i < |a| ==> b[i] == a[i];
    assert b[|a|] == u;
  }

  /** Every written file holds the bytes of one of the uploads. */
  lemma ItemDatas(uploads: seq<FileUpload>)
    ensures Datas(Items(uploads)) == set i | 0 <= i < |uploads| :: uploads[i].data
  {
    var items := Items(uploads);
    assert forall i :: 0 <= i < |uploads| ==> items[i].data == uploads[i].data;
  }

  /** An `ingest_files` that got past the loop: the retriever over the session
      index, and the store saved there. */
  datatype Built = Built(retriever: Retriever, saved: VectorStore)

  /** What `ingest_files` returns once the loop has run: any failure in the loop,
      no documents at all, or a failure while splitting, embedding or saving
      the index (`embedOk` false) is re-raised as "Ingestion error". */
  function Outcome(ing: DocumentIngestor, st: Ingest, split: (seq<Document>, nat, nat) -> seq<Document>,
                   embedOk: bool): Result<Built> {
    if !st.ok || st.docs == [] || !embedOk then Err(IngestError)
    else Ok(Built(Retriever(ing.sessionFaissDir, TopK), VectorStore(Contents(split(st.docs, ChunkSize, ChunkOverlap)))))
  }

  /** Items none of which has a supported extension leave the loop running
      with nothing written and no documents. */
  lemma {:induction false} RunUnsupported(items: seq<Item>, tokens: seq<string>, dir: string, fs: Files,
                                          load: (LoaderKind, string, Bytes) -> Option<seq<Document>>)
    requires |tokens| == |items|
    requires forall i :: 0 <= i < |items| ==> items[i].ext.Some? && items[i].ext.value !in SupportedFileTypes
    ensures Run(items, tokens, dir, fs, load) == Ingest(true, [], fs, [])
    decreases |items|
  {
    if items != [] {
      var n := |items| - 1;
      assert forall i :: 0 <= i < n ==> items[..n][i] == items[i];
      RunUnsupported(items[..n], tokens[..n], dir, fs, load);
    }
  }

  /** A batch in which no upload has a supported extension writes nothing and
      is rejected. */
  lemma AllUnsupportedRejected(ing: DocumentIngestor, uploads: seq<FileUpload>, tokens: seq<string>,
                               fs: Files, load: (LoaderKind, string, Bytes) -> Option<seq<Document>>,
                               split: (seq<Document>, nat, nat) -> seq<Document>, embedOk: bool)
    requires |tokens| == |uploads|
    requires forall i :: 0 <= i < |uploads| ==> !uploads[i].name.NullName? && Ext(uploads[i]) !in SupportedFileTypes
    ensures IngestSpec(uploads, tokens, ing.sessionTempDir, fs, load) == Ingest(true, [], fs, [])
    ensures Outcome(ing, IngestSpec(uploads, tokens, ing.sessionTempDir, fs, load), split, embedOk) == Err(IngestError)
  {
    RunUnsupported(Items(uploads), tokens, ing.sessionTempDir, fs, load);
  }

  /** The body of the loop of `ingest_files` for one upload: a name that is
      `None` stops the loop, an unsupported extension is skipped, and a
      supported one is written to a fresh temporary file and loaded. */
  method IngestOne(st: Ingest, ext: Option<string>, data: Bytes, token: string, dir: string,
                   load: (LoaderKind, string, Bytes) -> Option<seq<Document>>) returns (st': Ingest)
    requires st.ok
    ensures st' == IngestStep(st, ext, data, token, dir, load)
  {
    if ext.None? {
      return Ingest(false, st.docs, st.fs, st.saved);
    }
    if ext.value !in SupportedFileTypes {
      return st;
    }
    var tempPath := TempPath(dir, token, ext.value);
    var fs' := st.fs[tempPath := data];
    var saved := st.saved + [tempPath];
    var kind := LoaderFor(ext.value);
    if kind.None? {
      return Ingest(true, st.docs, fs', saved);
    }
    var docs := load(kind.value, tempPath, fs'[tempPath]);
    if docs.None? {
      return Ingest(false, st.docs, fs', saved);
    }
    st' := Ingest(true, st.docs + docs.value, fs', saved);
  }

  /** The loop of `ingest_files` over the uploads, each with its extension
      already read: it stops at the first upload whose name is `None` or
      whose loader raises. */
  method IngestLoop(items: seq<Item>, tokens: seq<string>, dir: string, fs: Files,
                    load: (LoaderKind, string, Bytes) -> Option<seq<Document>>) returns (st: Ingest)
    requires |tokens| == |items|
    ensures st == Run(items, tokens, dir, fs, load)
  {
    st := Ingest(true, [], fs, []);
    var i := 0;
    while i < |items|
      invariant 0 <= i <= |items|
      invariant Run(items[..i], tokens[..i], dir, fs, load) == st && st.ok
    {
      assert items[..i + 1][..i] == items[..i] && tokens[..i + 1][..i] == tokens[..i];
      st := IngestOne(st, items[i].ext, items[i].data, tokens[i], dir, load);
      if !st.ok {
        IngestHalts(items, tokens, dir, fs, load, i + 1);
        return;
      }
      i := i + 1;
    }
    assert items[..i] == items && tokens[..i] == tokens;
  }

  /** `ingest_files(uploaded_files)`: writes each supported upload to a fresh
      temporary file, loads it, and builds the retriever from all documents. */
  method IngestFiles(ing: DocumentIngestor, uploads: seq<FileUpload>, tokens: seq<string>, fs: Files,
                     load: (LoaderKind, string, Bytes) -> Option<seq<Document>>,
                     split: (seq<Document>, nat, nat) -> seq<Document>, embedOk: bool)
    returns (r: Result<Built>, fs': Files)
    requires |tokens| == |uploads|
    ensures fs' == IngestSpec(uploads, tokens, ing.sessionTempDir, fs, load).fs
    ensures r == Outcome(ing, IngestSpec(uploads, tokens, ing.sessionTempDir, fs, load), split, embedOk)
  {
    var st := IngestLoop(Items(uploads), tokens, ing.sessionTempDir, fs, load);
    fs' := st.fs;
    if !st.ok || st.docs == [] || !embedOk {
      return Err(IngestError), fs';
    }
    var chunks := split(st.docs, ChunkSize, ChunkOverlap);
    r := Ok(Built(Retriever(ing.sessionFaissDir, TopK), VectorStore(Contents(chunks))));
  }
}
