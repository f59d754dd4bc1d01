/** src/doc_compare/data_ingestion.py: the comparison folder holds the two PDFs
    being compared. Saving a pair first deletes every `*.pdf` there; reading
    a PDF labels each page that has text; combining renders every PDF of the
    folder in sorted name order. PyMuPDF is the `open` parameter. */
module DocCompareIngestion {
  import opened Wrappers
  import opened PyText
  import opened Portal
  import opened NameOrder
  import opened DocumentLoading

  const DeleteError := "Error deleting existing PDFs"
  const SaveError := "Error saving uploaded files"
  const ReadError := "Error reading PDF document"
  const CombineError := "Error occurred while combining"

  /** A path `base_dir.glob("*.pdf")` yields: a file directly inside `dir`
      whose name ends in ".pdf" (the match is case-sensitive). */
  predicate GlobPdf(dir: string, p: string) {
    StartsWith(p, dir + "/") && '/' !in p[|dir| + 1..] && EndsWith(p[|dir| + 1..], ".pdf")
  }

  /** The tree after every `*.pdf` file of `dir` has been unlinked. */
  function WithoutPdfs(dir: string, fs: Files): (r: Files)
    ensures forall p :: p in r <==> p in fs && !GlobPdf(dir, p)
    ensures forall p :: p in r ==> r[p] == fs[p]
  {
    map p | p in fs && !GlobPdf(dir, p) :: fs[p]
  }

  /** `delete_existing_file()`: unlinks the matches one at a time, in whatever
      order the directory is listed. */
  method DeleteExistingFile(dir: string, fs: Files) returns (fs': Files)
    ensures fs' == WithoutPdfs(dir, fs)
  {
    var matches := set p | p in fs && GlobPdf(dir, p);
    fs' := fs;
    while matches != {}
      invariant matches <= fs'.Keys
      invariant forall p :: p in fs' <==> p in fs && (!GlobPdf(dir, p) || p in matches)
      invariant forall p :: p in fs' ==> fs'[p] == fs[p]
      invariant forall p :: p in matches ==> GlobPdf(dir, p)
      decreases |matches|
    {
      var file :| file in matches;
      fs' := fs' - {file};
      matches := matches - {file};
    }
  }

  /** An uploaded file as Streamlit presents it: its name and its buffer. */
  datatype NamedUpload = NamedUpload(name: string, data: Bytes)

  /** `save_uploaded_files(reference_file, actual_file)`: the old PDFs are
      deleted first, then both names must end in ".pdf" (case-sensitive), then
      the reference and the actual file are written under `base_dir`. A
      rejected pair is reported as "Error saving uploaded files" and has still
      emptied the folder of PDFs. */
  method SaveUploadedFiles(dir: string, reference: NamedUpload, actual: NamedUpload, fs: Files)
    returns (r: Result<(string, string)>, fs': Files)
    ensures !EndsWith(reference.name, ".pdf") || !EndsWith(actual.name, ".pdf") ==>
      r == Err(SaveError) && fs' == WithoutPdfs(dir, fs)
    ensures EndsWith(reference.name, ".pdf") && EndsWith(actual.name, ".pdf") ==>
      && r == Ok((OsPathJoin(dir, reference.name), OsPathJoin(dir, actual.name)))
      && fs' == WithoutPdfs(dir, fs)[r.value.0 := reference.data][r.value.1 := actual.data]
  {
    fs' := DeleteExistingFile(dir, fs);
    var refPath := OsPathJoin(dir, reference.name);
    var actPath := OsPathJoin(dir, actual.name);
    if !EndsWith(reference.name, ".pdf") || !EndsWith(actual.name, ".pdf") {
      return Err(SaveError), fs';
    }
    fs' := fs'[refPath := reference.data];
    fs' := fs'[actPath := actual.data];
    r := Ok((refPath, actPath));
  }

  /** A plain file name: one non-empty path component. */
  predicate PlainName(n: string) {
    n != "" && '/' !in n
  }

  /** After a successful save of two plain names into a folder given without a
      trailing slash, the folder's PDFs are exactly the two uploads; the actual
      file wins when both have the same name; nothing outside is touched. */
  lemma SavedPairIsTheOnlyPdfs(dir: string, reference: NamedUpload, actual: NamedUpload, fs: Files,
                               rp: string, ap: string, fs': Files)
    requires dir != "" && !EndsWithSep(dir) && PlainName(reference.name) && PlainName(actual.name)
    requires EndsWith(reference.name, ".pdf") && EndsWith(actual.name, ".pdf")
    requires rp == OsPathJoin(dir, reference.name) && ap == OsPathJoin(dir, actual.name)
    requires fs' == WithoutPdfs(dir, fs)[rp := reference.data][ap := actual.data]
    ensures forall p :: p in fs' && GlobPdf(dir, p) <==> p == rp || p == ap
    ensures fs'[ap] == actual.data
    ensures rp != ap ==> fs'[rp] == reference.data
    ensures reference.name == actual.name ==> rp == ap
    ensures forall p :: p in fs && !GlobPdf(dir, p) ==> p in fs' && fs'[p] == fs[p]
  {
    assert reference.name[0] != '/' && actual.name[0] != '/';
    assert rp == dir + "/" + reference.name && ap == dir + "/" + actual.name;
    assert rp[|dir| + 1..] == reference.name && ap[|dir| + 1..] == actual.name;
    assert rp[..|dir + "/"|] == dir + "/" && ap[..|dir + "/"|] == dir + "/";
    assert GlobPdf(dir, rp) && GlobPdf(dir, ap);
  }

  /** What PyMuPDF reports for a file: encrypted, or the text of each page. */
  datatype Pdf = Encrypted | Pages(texts: seq<string>)

  /** `f"\n--- Page {n} ---\n"`. */
  function PageLabel(n: nat): string {
    "\n--- Page " + Decimal(n) + " ---\n"
  }

  /** The labelled sections of the first `n` pages: one per page whose text is
      not all whitespace, in page order. */
  function Sections(pages: seq<string>, n: nat): seq<string>
    requires n <= |pages|
  {
    if n == 0 then []
    else
      var prev := Sections(pages, n - 1);
      if HasText(pages[n - 1]) then prev + [PageLabel(n) + pages[n - 1]] else prev
  }

  /** What `read_pdf(path)` returns: an error when the file is missing, cannot
      be opened or is encrypted; otherwise the labelled sections of the pages
      with text, joined by newlines. */
  function ReadPdfSpec(path: string, fs: Files, open: Bytes -> Option<Pdf>): Result<string> {
    if path !in fs || open(fs[path]).None? || open(fs[path]).value.Encrypted? then Err(ReadError)
    else
      var pages := open(fs[path]).value.texts;
      Ok(Join("\n", Sections(pages, |pages|)))
  }

  /** `read_pdf(pdf_path)`. */
  method ReadPdf(path: string, fs: Files, open: Bytes -> Option<Pdf>) returns (r: Result<string>)
    ensures r == ReadPdfSpec(path, fs, open)
  {
    if path !in fs || open(fs[path]).None? {
      return Err(ReadError);
    }
    var doc := open(fs[path]).value;
    if doc.Encrypted? {
      return Err(ReadError);
    }
    var pages := doc.texts;
    var allText: seq<string> := [];
    for pageNum := 0 to |pages|
      invariant allText == Sections(pages, pageNum)
    {
      var text := pages[pageNum];
      StripTruthy(text);
      if Strip(text) != "" {
        allText := allText + [PageLabel(pageNum + 1) + text];
      }
    }
    r := Ok(Join("\n", allText));
  }

  /** Pages without text give no sections. */
  lemma {:induction false} BlankPagesNoSections(pages: seq<string>, n: nat)
    requires n <= |pages|
    requires forall j :: 0 <= j < n ==> !HasText(pages[j])
    ensures Sections(pages, n) == []
  {
    if n > 0 {
      BlankPagesNoSections(pages, n - 1);
    }
  }

  /** A readable PDF none of whose pages has text reads as the empty string. */
  lemma ReadPdfBlank(path: string, fs: Files, open: Bytes -> Option<Pdf>, pages: seq<string>)
    requires path in fs && open(fs[path]) == Some(Pages(pages))
    requires forall j :: 0 <= j < |pages| ==> !HasText(pages[j])
    ensures ReadPdfSpec(path, fs, open) == Ok("")
  {
    BlankPagesNoSections(pages, |pages|);
  }

  /** Every page with text appears among the sections, under its 1-based label. */
  lemma {:induction false} ReadPdfSections(pages: seq<string>, n: nat, j: nat)
    requires j < n <= |pages| && HasText(pages[j])
    ensures PageLabel(j + 1) + pages[j] in Sections(pages, n)
  {
    if j < n - 1 {
      ReadPdfSections(pages, n - 1, j);
    }
  }

  /** Every section is the label and text of a page with text. */
  lemma {:induction false} SectionsFromPages(pages: seq<string>, n: nat)
    requires n <= |pages|
    ensures forall x :: x in Sections(pages, n) ==>
      exists j :: 0 <= j < n && HasText(pages[j]) && x == PageLabel(j + 1) + pages[j]
  {
    if n > 0 {
      SectionsFromPages(pages, n - 1);
    }
  }

  /** A listed name that `combine_documents` reads: a file whose suffix is
      exactly ".pdf". */
  predicate PdfEntry(dir: string, fs: Files, name: string) {
    OsPathJoin(dir, name) in fs && Suffix(OsPathJoin(dir, name)) == ".pdf"
  }

  /** What `combine_documents` makes of one listed name: not a PDF file, a
      PDF that cannot be read, or a PDF and its text. */
  datatype Entry = Skipped | Unreadable | Read(name: string, content: string)

  function EntryOf(name: string, dir: string, fs: Files, open: Bytes -> Option<Pdf>): Entry {
    if !PdfEntry(dir, fs, name) then Skipped
    else
      match ReadPdfSpec(OsPathJoin(dir, name), fs, open)
      case Err(_) => Unreadable
      case Ok(content) => Read(name, content)
  }

  function Entries(names: seq<string>, dir: string, fs: Files, open: Bytes -> Option<Pdf>): (es: seq<Entry>)
    ensures |es| == |names|
  {
    seq(|names|, i requires 0 <= i < |names| => EntryOf(names[i], dir, fs, open))
  }

  /** The `(name, content)` pairs of the entries read, in order; an unreadable
      PDF aborts. */
  function Gather(es: seq<Entry>): Result<seq<(string, string)>>
    decreases |es|
  {
    if es == [] then Ok([])
    else
      var n := |es| - 1;
      var prev := Gather(es[..n]);
      if prev.Err? || es[n].Skipped? then prev
      else if es[n].Unreadable? then Err(CombineError)
      else Ok(prev.value + [(es[n].name, es[n].content)])
  }

  /** The `(name, content)` pairs `combine_documents` collects from the listed
      names, in the given order; any read error aborts. */
  function Collect(names: seq<string>, dir: string, fs: Files, open: Bytes -> Option<Pdf>): Result<seq<(string, string)>> {
    Gather(Entries(names, dir, fs, open))
  }

  /** `f"Document:{filename}\n{content}"` for each collected pair. */
  function DocParts(items: seq<(string, string)>): (r: seq<string>)
    ensures |r| == |items|
    ensures forall k :: 0 <= k < |items| ==> r[k] == "Document:" + items[k].0 + "\n" + items[k].1
  {
    seq(|items|, k requires 0 <= k < |items| => "Document:" + items[k].0 + "\n" + items[k].1)
  }

  /** What `combine_documents()` returns for a folder listed as `listing`. */
  function CombineSpec(dir: string, listing: seq<string>, fs: Files, open: Bytes -> Option<Pdf>): Result<string> {
    var items := Collect(Sorted(listing), dir, fs, open);
    if items.Err? then Err(CombineError) else Ok(Join("\n\n", DocParts(items.value)))
  }

  /** The body of the first loop of `combine_documents()` for one name. */
  method ReadEntry(name: string, dir: string, fs: Files, open: Bytes -> Option<Pdf>) returns (e: Entry)
    ensures e == EntryOf(name, dir, fs, open)
  {
    var filename := OsPathJoin(dir, name);
    if filename in fs && Suffix(filename) == ".pdf" {
      var content := ReadPdf(filename, fs, open);
      if content.Err? {
        return Unreadable;
      }
      return Read(name, content.value);
    }
    return Skipped;
  }

  /** The first loop of `combine_documents()`: read each PDF entry, in the
      given order, into the dictionary of contents. */
  method CollectContents(names: seq<string>, dir: string, fs: Files, open: Bytes -> Option<Pdf>)
    returns (r: Result<seq<(string, string)>>)
    ensures r == Collect(names, dir, fs, open)
  {
    ghost var es := Entries(names, dir, fs, open);
    var contents: seq<(string, string)> := [];
    for i := 0 to |names|
      invariant Gather(es[..i]) == Ok(contents)
    {
      assert es[..i + 1][..i] == es[..i];
      var e := ReadEntry(names[i], dir, fs, open);
      assert e == es[i];
      if e.Unreadable? {
        CollectStops(es, i + 1);
        return Err(CombineError);
      }
      if e.Read? {
        contents := contents + [(e.name, e.content)];
      }
    }
    assert es[..|names|] == es;
    r := Ok(contents);
  }

  /** `combine_documents()`: `listing` is what `iterdir()` yields. The PDFs are
      read in sorted name order into a dictionary, and the dictionary's items
      are rendered and joined by blank lines. */
  method CombineDocuments(dir: string, listing: seq<string>, fs: Files, open: Bytes -> Option<Pdf>)
    returns (r: Result<string>)
    ensures r == CombineSpec(dir, listing, fs, open)
  {
    var collected := CollectContents(Sorted(listing), dir, fs, open);
    if collected.Err? {
      return Err(CombineError);
    }
    var contents := collected.value;
    var docParts: seq<string> := [];
    for i := 0 to |contents|
      invariant docParts == DocParts(contents[..i])
    {
      docParts := docParts + ["Document:" + contents[i].0 + "\n" + contents[i].1];
    }
    assert contents[..|contents|] == contents;
    r := Ok(Join("\n\n", docParts));
  }

  /** After a read error the remaining names change nothing. */
  lemma {:induction false} CollectStops(es: seq<Entry>, m: nat)
    requires m <= |es| && Gather(es[..m]).Err?
    ensures Gather(es) == Gather(es[..m])
    decreases |es|
  {
    if m == |es| {
      assert es[..m] == es;
    } else {
      var n := |es| - 1;
      assert es[..n][..m] == es[..m];
      CollectStops(es[..n], m);
    }
  }

  /** The combined text depends on which names are listed, not on the order
      `iterdir()` lists them in; a folder without PDFs combines to "". */
  lemma CombineIgnoresListingOrder(dir: string, listing: seq<string>, listing': seq<string>, fs: Files,
                                   open: Bytes -> Option<Pdf>)
    requires multiset(listing) == multiset(listing')
    ensures CombineSpec(dir, listing, fs, open) == CombineSpec(dir, listing', fs, open)
  {
    SortedIgnoresOrder(listing, listing');
  }

  /** Entries that are all skipped collect nothing. */
  lemma {:induction false} SkippedCollectNothing(es: seq<Entry>)
    requires forall i :: 0 <= i < |es| ==> es[i].Skipped?
    ensures Gather(es) == Ok([])
    decreases |es|
  {
    if es != [] {
      var n := |es| - 1;
      assert forall i :: 0 <= i < n ==> es[..n][i] == es[i];
      SkippedCollectNothing(es[..n]);
    }
  }

  lemma NoPdfsCollectNothing(dir: string, names: seq<string>, fs: Files, open: Bytes -> Option<Pdf>)
    requires forall x :: x in names ==> !PdfEntry(dir, fs, x)
    ensures Collect(names, dir, fs, open) == Ok([])
  {
    var es := Entries(names, dir, fs, open);
    forall i | 0 <= i < |es| ensures es[i].Skipped? {
      assert names[i] in names;
    }
    SkippedCollectNothing(es);
  }

  /** A folder listing no PDF file combines to the empty string. */
  lemma NoPdfsCombineEmpty(dir: string, listing: seq<string>, fs: Files, open: Bytes -> Option<Pdf>)
    requires forall x :: x in listing ==> !PdfEntry(dir, fs, x)
    ensures CombineSpec(dir, listing, fs, open) == Ok("")
  {
    var names := Sorted(listing);
    assert forall x :: x in names ==> x in multiset(listing);
    NoPdfsCollectNothing(dir, names, fs, open);
  }
}
