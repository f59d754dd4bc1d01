/** src/document_ingestion/data_ingestion.py, `load_documents`: turning saved
    files into documents by suffix. PyMuPDF's page extraction and UTF-8
    decoding are parameters. */
module DocumentLoading {
  import opened Wrappers
  import opened PyText
  import opened Portal

  /** The readers `load_documents` relies on: PyMuPDF's page texts of a PDF
      file, and UTF-8 decoding; `None` when the bytes cannot be read. */
  datatype Readers = Readers(pdfPages: Bytes -> Option<seq<string>>, utf8: Bytes -> Option<string>)

  const Unreadable := "document could not be read"

  /** The documents of the first `n` pages: one per page whose text is not all
      whitespace (whose `strip()` is truthy, see `StripTruthy`), with its 1-based
      page number. */
  function PageDocs(p: string, pages: seq<string>, n: nat): (r: seq<Document>)
    requires n <= |pages|
    ensures forall k :: 0 <= k < |r| ==>
      && r[k].meta.source == Some(p) && r[k].meta.rowId.None? && r[k].meta.page.Some?
      && 1 <= r[k].meta.page.value <= n
      && r[k].content == pages[r[k].meta.page.value - 1] && HasText(r[k].content)
  {
    if n == 0 then []
    else
      var prev := PageDocs(p, pages, n - 1);
      if !HasText(pages[n - 1]) then prev
      else
        prev + [Document(pages[n - 1], Metadata(Some(p), Some(n), None))]
  }

  /** The documents come in page order. */
  lemma {:induction false} PageDocsOrdered(p: string, pages: seq<string>, n: nat)
    requires n <= |pages|
    ensures forall k, l :: 0 <= k < l < |PageDocs(p, pages, n)| ==>
      PageDocs(p, pages, n)[k].meta.page.value < PageDocs(p, pages, n)[l].meta.page.value
  {
    if n > 0 {
      PageDocsOrdered(p, pages, n - 1);
      var prev := PageDocs(p, pages, n - 1);
      var r := PageDocs(p, pages, n);
      if HasText(pages[n - 1]) {
        var d := Document(pages[n - 1], Metadata(Some(p), Some(n), None));
        assert r == prev + [d];
        forall k, l | 0 <= k < l < |r| ensures r[k].meta.page.value < r[l].meta.page.value {
          assert r[k] == prev[k];
          if l < |prev| {
            assert r[l] == prev[l];
            assert prev[k].meta.page.value < prev[l].meta.page.value;
          } else {
            assert r[l] == d;
            assert prev[k].meta.page.value <= n - 1;
          }
        }
      }
    }
  }

  /** Every page whose text is not all whitespace has its document. */
  lemma {:induction false} PageDocsComplete(p: string, pages: seq<string>, n: nat, j: nat)
    requires j < n <= |pages| && HasText(pages[j])
    ensures exists k :: 0 <= k < |PageDocs(p, pages, n)| && PageDocs(p, pages, n)[k].meta.page == Some(j + 1)
  {
    var prev := PageDocs(p, pages, n - 1);
    var r := PageDocs(p, pages, n);
    if j == n - 1 {
      assert r == prev + [Document(pages[j], Metadata(Some(p), Some(j + 1), None))];
      assert r[|prev|].meta.page == Some(j + 1);
    } else {
      PageDocsComplete(p, pages, n - 1, j);
      var k :| 0 <= k < |prev| && prev[k].meta.page == Some(j + 1);
      assert r[k] == prev[k];
    }
  }

  /** What `load_documents` makes of one path, by its lower-cased suffix. */
  function LoadOne(p: string, fs: Files, rd: Readers): Result<seq<Document>> {
    var ext := Lower(Suffix(p));
    if ext == ".pdf" then
      if p !in fs || rd.pdfPages(fs[p]).None? then Err(Unreadable)
      else Ok(PageDocs(p, rd.pdfPages(fs[p]).value, |rd.pdfPages(fs[p]).value|))
    else if ext == ".txt" || ext == ".md" then
      if p !in fs || rd.utf8(fs[p]).None? then Err(Unreadable)
      else Ok([Document(rd.utf8(fs[p]).value, Metadata(Some(p), None, None))])
    else Ok([])
  }

  /** A text or Markdown file gives exactly one document carrying only its source;
      a `.docx` or any other suffix gives none. */
  lemma LoadOneBySuffix(p: string, fs: Files, rd: Readers)
    ensures Lower(Suffix(p)) in {".txt", ".md"} && p in fs && rd.utf8(fs[p]).Some? ==>
      LoadOne(p, fs, rd) == Ok([Document(rd.utf8(fs[p]).value, Metadata(Some(p), None, None))])
    ensures Lower(Suffix(p)) !in {".pdf", ".txt", ".md"} ==> LoadOne(p, fs, rd) == Ok([])
  {
  }

  /** Joining per-file results in order: the documents one after another,
      unless some file failed, in which case the first failure. */
  function Gather(rs: seq<Result<seq<Document>>>): Result<seq<Document>>
    decreases |rs|
  {
    if rs == [] then Ok([])
    else
      var n := |rs| - 1;
      var prev := Gather(rs[..n]);
      if prev.Err? then prev
      else if rs[n].Err? then Err(rs[n].msg)
      else Ok(prev.value + rs[n].value)
  }

  /** What each path loads to, in path order. */
  function Loads(paths: seq<string>, fs: Files, rd: Readers): seq<Result<seq<Document>>> {
    seq(|paths|, i requires 0 <= i < |paths| => LoadOne(paths[i], fs, rd))
  }

  /** `load_documents(paths)`: the documents of every path in order; the first
      file that cannot be read aborts the whole call. */
  function LoadAll(paths: seq<string>, fs: Files, rd: Readers): Result<seq<Document>> {
    Gather(Loads(paths, fs, rd))
  }

  /** When every file loads, the documents are those of each file, concatenated
      in order. */
  lemma {:induction false} GatherConcatenates(rs: seq<Result<seq<Document>>>)
    requires forall i :: 0 <= i < |rs| ==> rs[i].Ok?
    ensures Gather(rs).Ok?
    ensures rs != [] ==> Gather(rs).value == Gather(rs[..|rs| - 1]).value + rs[|rs| - 1].value
    ensures |rs| == 1 ==> Gather(rs) == rs[0]
    decreases |rs|
  {
    if rs != [] {
      var n := |rs| - 1;
      GatherConcatenates(rs[..n]);
      if n == 0 {
        assert rs[..n] == [];
        assert [] + rs[0].value == rs[0].value;
      }
    }
  }

  /** A failure on some prefix of the files is the result of the whole call. */
  lemma {:induction false} GatherAbortsOnError(rs: seq<Result<seq<Document>>>, m: nat)
    requires m <= |rs| && Gather(rs[..m]).Err?
    ensures Gather(rs) == Gather(rs[..m])
    decreases |rs| - m
  {
    if m < |rs| {
      assert rs[..m + 1][..m] == rs[..m];
      GatherAbortsOnError(rs, m + 1);
    } else {
      assert rs[..m] == rs;
    }
  }

  /** The first failing file decides the result: its message is the whole call's,
      whatever the files after it hold. */
  lemma FirstFailureWins(rs: seq<Result<seq<Document>>>, i: nat)
    requires i < |rs| && rs[i].Err?
    requires forall j :: 0 <= j < i ==> rs[j].Ok?
    ensures Gather(rs) == Err(rs[i].msg)
  {
    var pre := rs[..i];
    GatherConcatenates(pre);
    assert rs[..i + 1][..i] == pre;
    GatherAbortsOnError(rs, i + 1);
  }

  /** The per-file body of `load_documents`. */
  method LoadFile(p: string, fs: Files, rd: Readers) returns (r: Result<seq<Document>>)
    ensures r == LoadOne(p, fs, rd)
  {
    var ext := Lower(Suffix(p));
    if ext == ".pdf" {
      if p !in fs || rd.pdfPages(fs[p]).None? {
        return Err(Unreadable);
      }
      var pages := rd.pdfPages(fs[p]).value;
      var docs: seq<Document> := [];
      var j := 0;
      while j < |pages|
        invariant 0 <= j <= |pages|
        invariant docs == PageDocs(p, pages, j)
      {
        var text := pages[j];
        StripTruthy(text);
        if Strip(text) != "" {
          docs := docs + [Document(text, Metadata(Some(p), Some(j + 1), None))];
        }
        j := j + 1;
      }
      r := Ok(docs);
    } else if ext == ".txt" || ext == ".md" {
      if p !in fs || rd.utf8(fs[p]).None? {
        return Err(Unreadable);
      }
      var text := rd.utf8(fs[p]).value;
      r := Ok([Document(text, Metadata(Some(p), None, None))]);
    } else {
      r := Ok([]);
    }
  }

  method LoadDocuments(paths: seq<string>, fs: Files, rd: Readers) returns (r: Result<seq<Document>>)
    ensures r == LoadAll(paths, fs, rd)
  {
    ghost var rs := Loads(paths, fs, rd);
    var docs: seq<Document> := [];
    var i := 0;
    while i < |paths|
      invariant 0 <= i <= |paths|
      invariant Gather(rs[..i]) == Ok(docs)
    {
      assert rs[..i + 1][..i] == rs[..i];
      var one := LoadFile(paths[i], fs, rd);
      assert one == rs[i];
      if one.Err? {
        GatherAbortsOnError(rs, i + 1);
        return Err(one.msg);
      }
      docs := docs + one.value;
      i := i + 1;
    }
    assert rs[..i] == rs;
    r := Ok(docs);
  }
}
