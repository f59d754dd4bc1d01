/** src/doc_compare/ingestion.py: the comparison ingestion that works in a
    fresh dated session folder per run. Saving does no extension check,
    combining decodes every `*.pdf` as Latin-1 in listing order, and old
    session folders are pruned to the newest few. */
module DocCompareSessions {
  import opened Wrappers
  import opened PyText
  import opened SessionIds
  import opened Portal
  import opened DocCompareIngestion

  /** The fixed folder the session folders are created in. */
  const CompareRoot := "/Users/ratulsur/Desktop/all_data/document_portal/data/document_compare"

  const CombineSessionError := "Error combining documents"

  /** `DocumentIngestion().base_dir`: the root followed by `session_<local stamp>`. */
  function SessionDir(now: Clock): (d: string)
    ensures StartsWith(d, CompareRoot + "/session_")
  {
    assert (CompareRoot + "/" + DatedName(now))[..|CompareRoot + "/session_"|] == CompareRoot + "/session_";
    Child(CompareRoot, DatedName(now))
  }

  /** Runs started at different valid clock readings get different folders. */
  lemma SessionDirsDistinct(t: Clock, t': Clock)
    requires ValidClock(t) && ValidClock(t') && t != t'
    ensures SessionDir(t) != SessionDir(t')
  {
    if SessionDir(t) == SessionDir(t') {
      var n := |CompareRoot| + 9;
      assert SessionDir(t)[n..] == Stamp(t) && SessionDir(t')[n..] == Stamp(t');
      StampInjective(t, t');
    }
  }

  /** `save_uploaded_files(ref_upload, act_upload)`: delete the folder's PDFs,
      then write the reference file and then the actual file, whatever their
      names. */
  method SaveUploadedFiles(dir: string, reference: NamedUpload, actual: NamedUpload, fs: Files)
    returns (paths: (string, string), fs': Files)
    ensures paths == (OsPathJoin(dir, reference.name), OsPathJoin(dir, actual.name))
    ensures fs' == WithoutPdfs(dir, fs)[paths.0 := reference.data][paths.1 := actual.data]
  {
    fs' := DeleteExistingFile(dir, fs);
    var refFile := OsPathJoin(dir, reference.name);
    var actFile := OsPathJoin(dir, actual.name);
    fs' := fs'[refFile := reference.data];
    fs' := fs'[actFile := actual.data];
    paths := (refFile, actFile);
  }

  /** After a save only the two written files can be PDFs of the folder; with
      equal names the actual file overwrites the reference; every other file
      that is not a PDF of the folder keeps its contents. */
  lemma SaveKeepsOnlyThePair(dir: string, reference: NamedUpload, actual: NamedUpload, fs: Files,
                             rp: string, ap: string, fs': Files)
    requires rp == OsPathJoin(dir, reference.name) && ap == OsPathJoin(dir, actual.name)
    requires fs' == WithoutPdfs(dir, fs)[rp := reference.data][ap := actual.data]
    ensures forall p :: p in fs' && GlobPdf(dir, p) ==> p == rp || p == ap
    ensures fs'[ap] == actual.data
    ensures reference.name == actual.name ==> fs'[rp] == actual.data
    ensures rp != ap ==> fs'[rp] == reference.data
    ensures forall p :: p in fs && !GlobPdf(dir, p) && p != rp && p != ap ==> fs'[p] == fs[p]
  {
  }

  /** `bytes.decode("latin-1")`: every byte becomes the character with the same code. */
  function Latin1(b: Bytes): (s: string)
    ensures |s| == |b|
    ensures forall i :: 0 <= i < |b| ==> s[i] as int == b[i] as int
  {
    seq(|b|, i requires 0 <= i < |b| => (b[i] as int) as char)
  }

  /** `str.encode("latin-1")` for characters below 256. */
  function Latin1Encode(s: string): (b: Bytes)
    requires forall i :: 0 <= i < |s| ==> s[i] as int < 256
    ensures |b| == |s|
  {
    seq(|s|, i requires 0 <= i < |s| => (s[i] as int) as bv8)
  }

  /** Decoding as Latin-1 loses nothing: encoding the text gives the bytes back. */
  lemma Latin1RoundTrip(b: Bytes)
    ensures Latin1Encode(Latin1(b)) == b
  {
    var s := Latin1(b);
    forall i | 0 <= i < |b| ensures Latin1Encode(s)[i] == b[i] {
      assert s[i] as int == b[i] as int;
    }
  }

  /** `f"\nDocument:{name}\n\n{text}\n"`. */
  function Section(name: string, data: Bytes): string {
    "\nDocument:" + name + "\n\n" + Latin1(data) + "\n"
  }

  /** What `combine_documents()` returns when `glob` walks the folder in the
      order `listing`: the sections of the entries whose name ends in ".pdf",
      concatenated; an entry that is not a file cannot be opened and fails. */
  function CombineSpec(dir: string, listing: seq<string>, fs: Files): Result<string>
    decreases |listing|
  {
    if listing == [] then Ok("")
    else
      var n := |listing| - 1;
      var prev := CombineSpec(dir, listing[..n], fs);
      var p := OsPathJoin(dir, listing[n]);
      if prev.Err? || !EndsWith(listing[n], ".pdf") then prev
      else if p !in fs then Err(CombineSessionError)
      else Ok(prev.value + Section(listing[n], fs[p]))
  }

  /** `combine_documents()`. */
  method CombineDocuments(dir: string, listing: seq<string>, fs: Files) returns (r: Result<string>)
    ensures r == CombineSpec(dir, listing, fs)
  {
    var combinedText := "";
    for i := 0 to |listing|
      invariant CombineSpec(dir, listing[..i], fs) == Ok(combinedText)
    {
      assert listing[..i + 1][..i] == listing[..i];
      if EndsWith(listing[i], ".pdf") {
        var pdfFile := OsPathJoin(dir, listing[i]);
        if pdfFile !in fs {
          CombineStops(dir, listing, fs, i + 1);
          return Err(CombineSessionError);
        }
        var text := Latin1(fs[pdfFile]);
        assert combinedText + "\nDocument:" + listing[i] + "\n\n" + text + "\n"
            == combinedText + Section(listing[i], fs[pdfFile]);
        combinedText := combinedText + "\nDocument:" + listing[i] + "\n\n" + text + "\n";
      }
    }
    assert listing[..|listing|] == listing;
    r := Ok(combinedText);
  }

  lemma {:induction false} CombineStops(dir: string, listing: seq<string>, fs: Files, m: nat)
    requires m <= |listing| && CombineSpec(dir, listing[..m], fs).Err?
    ensures CombineSpec(dir, listing, fs) == CombineSpec(dir, listing[..m], fs)
    decreases |listing|
  {
    if m == |listing| {
      assert listing[..m] == listing;
    } else {
      var n := |listing| - 1;
      assert listing[..n][..m] == listing[..m];
      CombineStops(dir, listing[..n], fs, m);
    }
  }

  /** The total size of the sections of the listed PDFs: each contributes its
      name, one character per byte of its file, and thirteen fixed characters. */
  function SectionsLength(dir: string, listing: seq<string>, fs: Files): nat
    decreases |listing|
  {
    if listing == [] then 0
    else
      var n := |listing| - 1;
      var p := OsPathJoin(dir, listing[n]);
      SectionsLength(dir, listing[..n], fs)
        + (if EndsWith(listing[n], ".pdf") && p in fs then |listing[n]| + |fs[p]| + 13 else 0)
  }

  /** A successful combination is exactly as long as its sections, since
      Latin-1 decoding maps every byte to one character; with no PDF listed it
      is the empty string. */
  lemma {:induction false} CombineLength(dir: string, listing: seq<string>, fs: Files)
    requires CombineSpec(dir, listing, fs).Ok?
    ensures |CombineSpec(dir, listing, fs).value| == SectionsLength(dir, listing, fs)
    ensures (forall k :: 0 <= k < |listing| ==> !EndsWith(listing[k], ".pdf")) ==> CombineSpec(dir, listing, fs) == Ok("")
    decreases |listing|
  {
    if listing != [] {
      var n := |listing| - 1;
      assert forall k :: 0 <= k < n ==> listing[..n][k] == listing[k];
      CombineLength(dir, listing[..n], fs);
    }
  }

  // ---------------------------------------------------------------- retention

  /** An entry of the root folder: its name, whether it is a directory, and its
      modification time (only the order of times matters here). */
  datatype Entry = Entry(name: string, isDir: bool, mtime: int)

  /** `[p for p in parent.glob("session*") if p.is_dir()]`, in listing order. */
  function Candidates(entries: seq<Entry>): (r: seq<Entry>)
    ensures forall e :: e in r <==> e in entries && StartsWith(e.name, "session") && e.isDir
    ensures multiset(r) <= multiset(entries)
  {
    if entries == [] then []
    else
      var n := |entries| - 1;
      var prev := Candidates(entries[..n]);
      assert entries == entries[..n] + [entries[n]];
      var e := entries[n];
      if StartsWith(e.name, "session") && e.isDir then prev + [e] else prev
  }

  /** Newest first: each entry is at least as recent as the next. */
  predicate NewestFirst(s: seq<Entry>) {
    forall i :: 0 < i < |s| ==> s[i - 1].mtime >= s[i].mtime
  }

  /** Inserts `e` after every entry at least as recent, so entries with equal
      times keep the order they were listed in, as Python's stable sort does. */
  function InsertByAge(e: Entry, s: seq<Entry>): (r: seq<Entry>)
    requires NewestFirst(s)
    ensures NewestFirst(r)
    ensures multiset(r) == multiset(s) + multiset{e}
    ensures r[0] == e || (s != [] && r[0] == s[0])
  {
    if s == [] || e.mtime > s[0].mtime then [e] + s
    else
      assert s == [s[0]] + s[1..];
      [s[0]] + InsertByAge(e, s[1..])
  }

  /** `sorted(sessions, key=os.path.getmtime, reverse=True)`. */
  function ByAge(xs: seq<Entry>): (r: seq<Entry>)
    ensures NewestFirst(r)
    ensures multiset(r) == multiset(xs)
  {
    if xs == [] then []
    else
      var n := |xs| - 1;
      assert xs == xs[..n] + [xs[n]];
      InsertByAge(xs[n], ByAge(xs[..n]))
  }

  /** In a newest-first list every entry is at least as recent as every later one. */
  lemma {:induction false} NewestFirstPairwise(s: seq<Entry>)
    requires NewestFirst(s)
    ensures forall i, j :: 0 <= i <= j < |s| ==> s[i].mtime >= s[j].mtime
  {
    if s != [] {
      NewestFirstPairwise(s[1..]);
      forall i, j | 0 <= i <= j < |s| ensures s[i].mtime >= s[j].mtime {
        if 0 < i {
          assert s[i] == s[1..][i - 1] && s[j] == s[1..][j - 1];
        } else if 0 < j {
          assert s[1] == s[1..][0] && s[j] == s[1..][j - 1];
        }
      }
    }
  }

  /** The start of Python's slice `s[k:]` for a list of length `n`. */
  function SliceStart(n: nat, k: int): (i: nat)
    ensures i <= n
  {
    if k >= 0 then (if k <= n then k else n)
    else if n + k >= 0 then n + k else 0
  }

  /** `shutil.rmtree(dir)`: every file below `dir` is gone. */
  function RemoveTree(fs: Files, dir: string): Files {
    map p | p in fs && !StartsWith(p, dir + "/") :: fs[p]
  }

  /** The tree after removing each listed session folder in turn. */
  function RemoveTrees(parent: string, olds: seq<Entry>, fs: Files): Files
    decreases |olds|
  {
    if olds == [] then fs
    else
      var n := |olds| - 1;
      RemoveTree(RemoveTrees(parent, olds[..n], fs), OsPathJoin(parent, olds[n].name))
  }

  /** A file survives the removals exactly when it lies below none of the
      removed folders, and then keeps its contents. */
  lemma {:induction false} RemoveTreesExactly(parent: string, olds: seq<Entry>, fs: Files)
    ensures forall p :: p in RemoveTrees(parent, olds, fs) <==>
      p in fs && forall j :: 0 <= j < |olds| ==> !StartsWith(p, OsPathJoin(parent, olds[j].name) + "/")
    ensures forall p :: p in RemoveTrees(parent, olds, fs) ==> RemoveTrees(parent, olds, fs)[p] == fs[p]
    decreases |olds|
  {
    if olds != [] {
      var n := |olds| - 1;
      RemoveTreesExactly(parent, olds[..n], fs);
      assert forall j :: 0 <= j < n ==> olds[..n][j] == olds[j];
    }
  }

  /** `clean_old_sessions(keep_latest)`: the session folders of `parent`
      (listed as `entries`) are ordered newest first, and every one from index
      `keep_latest` on, as Python slices it, is removed with its contents.
      Returns the removed entries. */
  method CleanOldSessions(parent: string, entries: seq<Entry>, keepLatest: int, fs: Files)
    returns (removed: seq<Entry>, fs': Files)
    ensures var sessions := ByAge(Candidates(entries));
      removed == sessions[SliceStart(|sessions|, keepLatest)..]
    ensures fs' == RemoveTrees(parent, removed, fs)
  {
    var sessions := ByAge(Candidates(entries));
    removed := sessions[SliceStart(|sessions|, keepLatest)..];
    fs' := RemoveSessions(parent, removed, fs);
  }

  /** The loop `for old in sessions[keep_latest:]: shutil.rmtree(old)`. */
  method RemoveSessions(parent: string, olds: seq<Entry>, fs: Files) returns (fs': Files)
    ensures fs' == RemoveTrees(parent, olds, fs)
  {
    fs' := fs;
    for i := 0 to |olds|
      invariant fs' == RemoveTrees(parent, olds[..i], fs)
    {
      assert olds[..i + 1][..i] == olds[..i];
      var stale := olds[i];
      fs' := RemoveTree(fs', OsPathJoin(parent, stale.name));
    }
    assert olds[..|olds|] == olds;
  }

  /** The retention rule: for `keep_latest >= 0` exactly `max(0, n - keep_latest)`
      session folders are removed, only session directories are removed, and
      every kept session is at least as recent as every removed one. */
  lemma KeepsNewest(entries: seq<Entry>, keepLatest: int)
    ensures var sessions := ByAge(Candidates(entries));
      var start := SliceStart(|sessions|, keepLatest);
      && (keepLatest >= 0 ==> |sessions[start..]| == if |sessions| > keepLatest then |sessions| - keepLatest else 0)
      && (forall e :: e in sessions[start..] ==> e in entries && e.isDir && StartsWith(e.name, "session"))
      && (forall i, j :: 0 <= i < start <= j < |sessions| ==> sessions[i].mtime >= sessions[j].mtime)
  {
    var sessions := ByAge(Candidates(entries));
    NewestFirstPairwise(sessions);
    forall e | e in sessions[SliceStart(|sessions|, keepLatest)..]
      ensures e in entries && e.isDir && StartsWith(e.name, "session")
    {
      assert e in multiset(Candidates(entries));
    }
  }

  /** Plain files directly inside the root are never removed, and files outside
      the removed session folders keep their contents. */
  lemma PlainFilesKept(parent: string, olds: seq<Entry>, fs: Files, name: string)
    requires parent != "" && !EndsWithSep(parent) && name != "" && '/' !in name
    requires Child(parent, name) in fs
    requires forall j :: 0 <= j < |olds| ==> olds[j].name != "" && olds[j].name[0] != '/'
    ensures Child(parent, name) in RemoveTrees(parent, olds, fs)
    ensures RemoveTrees(parent, olds, fs)[Child(parent, name)] == fs[Child(parent, name)]
  {
    RemoveTreesExactly(parent, olds, fs);
    var p := Child(parent, name);
    forall j | 0 <= j < |olds| ensures !StartsWith(p, OsPathJoin(parent, olds[j].name) + "/") {
      var d := OsPathJoin(parent, olds[j].name) + "/";
      assert d == parent + "/" + olds[j].name + "/";
      if |d| <= |p| {
        var k := |d| - 1;
        assert p[k] == name[k - |parent| - 1] && name[k - |parent| - 1] != '/';
        assert p[..|d|][k] != d[k];
      }
    }
  }
}
