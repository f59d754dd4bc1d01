/** src/doc_analyzer/data_ingestion.py: `DocumentHandler`, which resolves a
    session folder, saves uploaded PDFs into it and reads a PDF back as one
    text. The environment variable, the working directory, the clock, the
    token and PyMuPDF's page texts are parameters. */
module DocAnalyzer {
  import opened Wrappers
  import opened PyText
  import opened SessionIds
  import opened Portal

  const InitError := "Error initializing DocumentHandler"
  const SaveError := "Error saving PDF"
  const ReadError := "Error reading PDF"

  /** The folders a `DocumentHandler` resolves on construction. */
  datatype DocumentHandler = DocumentHandler(dataDir: string, sessionId: string, sessionPath: string)

  /** `data_dir or os.getenv("DATA_STORAGE_PATH", os.path.join(os.getcwd(), "data", "document_analysis"))`:
      a non-empty argument, else the environment variable when it is set (even
      to ""), else `data/document_analysis` under the working directory. */
  function DataDir(arg: Option<string>, env: Option<string>, cwd: string): (d: string)
    ensures arg.Some? && arg.value != "" ==> d == arg.value
    ensures (arg.None? || arg.value == "") && env.Some? ==> d == env.value
    ensures (arg.None? || arg.value == "") && env.None? ==> d == OsPathJoin(OsPathJoin(cwd, "data"), "document_analysis")
  {
    if arg.Some? && arg.value != "" then arg.value
    else if env.Some? then env.value
    else OsPathJoin(OsPathJoin(cwd, "data"), "document_analysis")
  }

  /** `DocumentHandler(data_dir, session_id)`: a missing or empty id is replaced
      by `session_<UTC stamp>_<8 hex digits>`; the session path is the id
      joined under the data folder. `mkdirOk` is whether `os.makedirs` succeeds. */
  function NewDocumentHandler(dataDir: Option<string>, env: Option<string>, cwd: string,
                              sessionId: Option<string>, now: Clock, hex: string, mkdirOk: bool)
    : (r: Result<DocumentHandler>)
    requires ValidClock(now) && IsHexToken(hex, 8)
    ensures !mkdirOk <==> r == Err(InitError)
    ensures r.Ok? ==>
      && r.value.dataDir == DataDir(dataDir, env, cwd)
      && (sessionId.Some? && sessionId.value != "" ==> r.value.sessionId == sessionId.value)
      && (sessionId.None? || sessionId.value == "" ==> r.value.sessionId == TimedId("session", now, hex))
      && r.value.sessionPath == OsPathJoin(r.value.dataDir, r.value.sessionId)
  {
    if !mkdirOk then Err(InitError)
    else
      var dir := DataDir(dataDir, env, cwd);
      var sid := if sessionId.Some? && sessionId.value != "" then sessionId.value else TimedId("session", now, hex);
      Ok(DocumentHandler(dir, sid, OsPathJoin(dir, sid)))
  }

  /** A relative name joined under a folder lies inside that folder. */
  lemma JoinStaysInside(dir: string, name: string)
    requires !IsAbsolute(name)
    ensures StartsWith(OsPathJoin(dir, name), dir)
    ensures EndsWith(OsPathJoin(dir, name), name)
  {
    var sep := if dir == "" || EndsWithSep(dir) then "" else "/";
    var p := OsPathJoin(dir, name);
    assert p == dir + sep + name;
    assert p[..|dir|] == dir;
    assert p[|p| - |name|..] == name;
  }

  /** A generated session id is relative, so the session folder lies inside
      the data folder and ends with the id. */
  lemma GeneratedSessionInsideDataDir(dataDir: Option<string>, env: Option<string>, cwd: string,
                                      now: Clock, hex: string)
    requires ValidClock(now) && IsHexToken(hex, 8)
    ensures var h := NewDocumentHandler(dataDir, env, cwd, None, now, hex, true).value;
      StartsWith(h.sessionPath, h.dataDir) && EndsWith(h.sessionPath, h.sessionId)
  {
    var sid := TimedId("session", now, hex);
    assert sid[0] == 's';
    JoinStaysInside(DataDir(dataDir, env, cwd), sid);
  }

  /** `os.path.basename(name).lower().endswith(".pdf")`. */
  predicate PdfName(name: string) {
    EndsWith(Lower(Basename(name)), ".pdf")
  }

  /** Characters after the last occurrence do not move it. */
  lemma {:induction false} RfindSkipsTail(x: string, y: string, c: char)
    requires c !in y
    ensures Rfind(x + y, c) == Rfind(x, c)
    decreases |y|
  {
    if y == [] {
      assert x + y == x;
    } else {
      var xy := x + y;
      assert xy[..|xy| - 1] == x + y[..|y| - 1];
      assert xy[|xy| - 1] == y[|y| - 1];
      RfindSkipsTail(x, y[..|y| - 1], c);
    }
  }

  /** The final component of a path built by joining a slash-free name. */
  lemma BasenameOfJoin(dir: string, name: string)
    requires name != [] && '/' !in name
    ensures Basename(OsPathJoin(dir, name)) == name
  {
    var sep := if dir == "" || EndsWithSep(dir) then "" else "/";
    var head := dir + sep;
    assert !IsAbsolute(name);
    assert OsPathJoin(dir, name) == head + name;
    RfindSkipsTail(head, name, '/');
    if head != [] {
      assert head[|head| - 1] == '/';
    }
    assert (head + name)[|head|..] == name;
  }

  /** `save_pdf(uploaded_file)`: only a name whose base name ends in ".pdf",
      ignoring case, is accepted; the file is written under the session folder
      with its directory parts dropped. A rejection is re-raised as "Error
      saving PDF". */
  function SavePdf(h: DocumentHandler, name: string, data: Bytes, fs: Files): (r: Result<(string, Files)>)
    ensures !PdfName(name) <==> r.Err?
    ensures r.Err? ==> r.msg == SaveError
    ensures r.Ok? ==>
      && r.value.0 == OsPathJoin(h.sessionPath, Basename(name))
      && r.value.1 == fs[r.value.0 := data]
  {
    var filename := Basename(name);
    if !EndsWith(Lower(filename), ".pdf") then Err(SaveError)
    else
      var savePath := OsPathJoin(h.sessionPath, filename);
      Ok((savePath, fs[savePath := data]))
  }

  /** An accepted PDF lands directly inside the session folder under its own
      base name, whatever directories its upload name carried. */
  lemma SavedPdfInsideSession(h: DocumentHandler, name: string, data: Bytes, fs: Files)
    requires PdfName(name)
    ensures var p := SavePdf(h, name, data, fs).value.0;
      && StartsWith(p, h.sessionPath)
      && Basename(p) == Basename(name)
      && SavePdf(h, name, data, fs).value.1[p] == data
  {
    var b := Basename(name);
    assert |b| >= 4;
    assert b[0] != '/';
    JoinStaysInside(h.sessionPath, b);
    BasenameOfJoin(h.sessionPath, b);
  }

  /** The texts of the pages, one after another, with nothing between them. */
  function Concat(pages: seq<string>): (text: string)
  {
    if pages == [] then "" else Concat(pages[..|pages| - 1]) + pages[|pages| - 1]
  }

  /** Concatenating two runs of pages is concatenating their texts, so every
      page's text appears whole and in order, empty pages included. */
  lemma {:induction false} ConcatAppend(a: seq<string>, b: seq<string>)
    ensures Concat(a + b) == Concat(a) + Concat(b)
    decreases |b|
  {
    if b == [] {
      assert a + b == a;
    } else {
      var n := |b| - 1;
      assert (a + b)[..|a + b| - 1] == a + b[..n];
      ConcatAppend(a, b[..n]);
    }
  }

  /** The length of the text is the total length of the pages. */
  function TotalLength(pages: seq<string>): nat {
    if pages == [] then 0 else TotalLength(pages[..|pages| - 1]) + |pages[|pages| - 1]|
  }

  lemma {:induction false} ConcatLength(pages: seq<string>)
    ensures |Concat(pages)| == TotalLength(pages)
  {
    if pages != [] {
      ConcatLength(pages[..|pages| - 1]);
    }
  }

  /** `read_pdf(pdf_path)`: a missing path, or a file PyMuPDF cannot open, is
      "Error reading PDF"; otherwise the page texts concatenated. */
  method ReadPdf(path: string, fs: Files, pageTexts: Bytes -> Option<seq<string>>) returns (r: Result<string>)
    ensures path !in fs || pageTexts(fs[path]).None? <==> r == Err(ReadError)
    ensures r.Ok? ==> r.value == Concat(pageTexts(fs[path]).value)
  {
    if path !in fs {
      return Err(ReadError);
    }
    var doc := pageTexts(fs[path]);
    if doc.None? {
      return Err(ReadError);
    }
    var pages := doc.value;
    var text := "";
    for i := 0 to |pages|
      invariant text == Concat(pages[..i])
    {
      assert pages[..i + 1][..i] == pages[..i];
      text := text + pages[i];
    }
    assert pages[..|pages|] == pages;
    r := Ok(text);
  }
}
