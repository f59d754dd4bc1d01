/** utils/file_io.py: choosing, filtering and renaming uploads before they are
    written into an ingestion directory. */
module FileIo {
  import opened Wrappers
  import opened PyText
  import opened SessionIds
  import opened Portal

  /** The extensions `save_uploaded_files` accepts (compared lower-cased). */
  const SupportedExtensions: set<string> := {".pdf", ".docx", ".txt"}

  /** `generate_session_id(prefix)`: prefix, IST timestamp and eight hex digits. */
  function GenerateSessionId(prefix: string, now: Clock, hex: string): (id: string)
    requires ValidClock(now) && IsHexToken(hex, 8)
    ensures |id| == |prefix| + 25
    ensures StartsWith(id, prefix + "_") && EndsWith(id, "_" + hex)
  {
    TimedId(prefix, now, hex)
  }

  /** An upload as FastAPI (`filename`), Streamlit or a file object (`name`)
      presents it; an absent attribute and an attribute holding None are both None. */
  datatype Upload = Upload(filename: Option<string>, name: Option<string>, data: Bytes)

  /** `getattr(uf, "filename", None) or getattr(uf, "name", None) or "file"`. */
  function OriginalName(u: Upload): (n: string)
    ensures n != ""
    ensures u.filename.Some? && u.filename.value != "" ==> n == u.filename.value
    ensures n == "file" || Some(n) == u.filename || Some(n) == u.name
  {
    if u.filename.Some? && u.filename.value != "" then u.filename.value
    else if u.name.Some? && u.name.value != "" then u.name.value
    else "file"
  }

  /** The lower-cased extension that decides whether an upload is kept. */
  function Extension(u: Upload): string {
    Lower(Suffix(OriginalName(u)))
  }

  predicate Accepts(u: Upload) {
    Extension(u) in SupportedExtensions
  }

  /** A character the regular expression `[a-zA-Z0-9_\-]` keeps. */
  predicate KeptChar(c: char) {
    ('a' <= c <= 'z') || ('A' <= c <= 'Z') || IsDigit(c) || c == '_' || c == '-'
  }

  /** A character allowed in a sanitised name. */
  predicate SafeChar(c: char) {
    ('a' <= c <= 'z') || IsDigit(c) || c == '_' || c == '-'
  }

  /** `re.sub(r'[^a-zA-Z0-9_\-]', '_', stem)`. */
  function ReplaceUnsafe(stem: string): (r: string)
    ensures |r| == |stem|
    ensures forall i :: 0 <= i < |stem| ==> r[i] == if KeptChar(stem[i]) then stem[i] else '_'
  {
    seq(|stem|, i requires 0 <= i < |stem| => if KeptChar(stem[i]) then stem[i] else '_')
  }

  /** `re.sub(r'[^a-zA-Z0-9_\-]', '_', stem).lower()`: one character out per
      character in, drawn only from `[a-z0-9_-]`. */
  function Sanitize(stem: string): (r: string)
    ensures |r| == |stem|
    ensures forall i :: 0 <= i < |r| ==> SafeChar(r[i])
    ensures forall i :: 0 <= i < |r| ==> (r[i] == '_' <==> !KeptChar(stem[i]) || stem[i] == '_')
    ensures forall i :: 0 <= i < |r| && KeptChar(stem[i]) ==> r[i] == LowerChar(stem[i])
  {
    LowerAt(ReplaceUnsafe(stem));
    Lower(ReplaceUnsafe(stem))
  }

  /** Sanitising a sanitised name changes nothing. */
  lemma SanitizeIdempotent(stem: string)
    ensures Sanitize(Sanitize(stem)) == Sanitize(stem)
  {
    var r := Sanitize(stem);
    LowerAt(ReplaceUnsafe(r));
    assert forall i :: 0 <= i < |r| ==> Sanitize(r)[i] == r[i];
  }

  /** `f"{safe_name}_{uuid.uuid4().hex[:6]}{ext}"`. */
  function UniqueName(stem: string, token: string, ext: string): string {
    Sanitize(stem) + "_" + token + ext
  }

  /** The path an accepted upload is written to. */
  function SavedPath(dir: string, u: Upload, token: string): string {
    Child(dir, UniqueName(Stem(OriginalName(u)), token, Extension(u)))
  }

  /** A path in `dir` whose suffix is a supported extension and whose stem is
      drawn only from `[a-z0-9_-]`. */
  predicate WellNamed(dir: string, p: string) {
    && StartsWith(p, dir + "/")
    && Suffix(p) in SupportedExtensions
    && forall i :: 0 <= i < |Stem(p)| ==> SafeChar(Stem(p)[i])
  }

  /** The supported extensions are one dot followed by dot-free letters. */
  lemma SupportedShape(ext: string)
    requires ext in SupportedExtensions
    ensures |ext| >= 2 && ext[0] == '.' && '/' !in ext && '.' !in ext[1..]
  {
  }

  /** The part of a saved name before its extension is drawn from `[a-z0-9_-]`. */
  lemma SafeBase(stem: string, token: string)
    requires IsHexToken(token, 6)
    ensures var base := Sanitize(stem) + "_" + token;
      && base != "" && '.' !in base && '/' !in base
      && forall i :: 0 <= i < |base| ==> SafeChar(base[i])
  {
    var base := Sanitize(stem) + "_" + token;
    assert forall i :: 0 <= i < |base| ==> SafeChar(base[i]) by {
      forall i | 0 <= i < |base| ensures SafeChar(base[i]) {
        if i > |Sanitize(stem)| {
          assert base[i] == token[i - |Sanitize(stem)| - 1];
        }
      }
    }
  }

  /** The saved path keeps the upload's lower-cased extension as its suffix, so
      a later `Path(p).suffix.lower()` sees the same file type. */
  lemma SavedPathWellNamed(dir: string, u: Upload, token: string)
    requires Accepts(u) && IsHexToken(token, 6)
    ensures WellNamed(dir, SavedPath(dir, u, token))
    ensures Suffix(SavedPath(dir, u, token)) == Extension(u)
  {
    var stem := Stem(OriginalName(u));
    var base := Sanitize(stem) + "_" + token;
    var ext := Extension(u);
    SafeBase(stem, token);
    SupportedShape(ext);
    SuffixOfChild(dir, base, ext);
    assert UniqueName(stem, token, ext) == base + ext;
    var p := SavedPath(dir, u, token);
    assert p == Child(dir, base + ext);
    assert p[..|dir + "/"|] == dir + "/";
  }

  /** How many uploads are accepted. */
  function CountAccepted(uploads: seq<Upload>): nat {
    if uploads == [] then 0
    else CountAccepted(uploads[..|uploads| - 1]) + (if Accepts(uploads[|uploads| - 1]) then 1 else 0)
  }

  /** Every path in the list is well named in `dir`. */
  predicate AllWellNamed(dir: string, paths: seq<string>)
    decreases |paths|
  {
    paths == [] || (AllWellNamed(dir, paths[..|paths| - 1]) && WellNamed(dir, paths[|paths| - 1]))
  }

  /** What the loop of `save_uploaded_files` does with one upload: write its
      bytes to `target`, or nothing when the upload is skipped. */
  datatype Write = Write(target: Option<string>, data: Bytes)

  /** Where upload `u` is written, if it is accepted. */
  function Target(dir: string, u: Upload, token: string): Option<string> {
    if Accepts(u) then Some(SavedPath(dir, u, token)) else None
  }

  /** The writes for a list of uploads, in order. */
  function Writes(uploads: seq<Upload>, tokens: seq<string>, dir: string): (ws: seq<Write>)
    requires |tokens| == |uploads|
    ensures |ws| == |uploads|
  {
    seq(|uploads|, i requires 0 <= i < |uploads| => Write(Target(dir, uploads[i], tokens[i]), uploads[i].data))
  }

  /** Carrying out some writes in order: the paths written, in order, and the
      directory tree afterwards. */
  function Apply(ws: seq<Write>, fs: Files): (seq<string>, Files)
    decreases |ws|
  {
    if ws == [] then ([], fs)
    else
      var n := |ws| - 1;
      var prev := Apply(ws[..n], fs);
      if ws[n].target.None? then prev
      else (prev.0 + [ws[n].target.value], prev.1[ws[n].target.value := ws[n].data])
  }

  /** What saving the uploads produces: the saved paths in input order and
      the directory tree afterwards. */
  function SaveSpec(uploads: seq<Upload>, tokens: seq<string>, dir: string, fs: Files): (seq<string>, Files)
    requires |tokens| == |uploads|
  {
    Apply(Writes(uploads, tokens, dir), fs)
  }

  /** The writes of a prefix of the uploads are a prefix of the writes. */
  lemma WritesPrefix(uploads: seq<Upload>, tokens: seq<string>, dir: string, n: nat)
    requires |tokens| == |uploads| && n <= |uploads|
    ensures Writes(uploads[..n], tokens[..n], dir) == Writes(uploads, tokens, dir)[..n]
  {
    var a, b := Writes(uploads[..n], tokens[..n], dir), Writes(uploads, tokens, dir)[..n];
    assert forall i :: 0 <= i < n ==> a[i] == b[i];
  }

  /** One path is saved per accepted upload. */
  lemma {:induction false} SavedCount(uploads: seq<Upload>, tokens: seq<string>, dir: string, fs: Files)
    requires |tokens| == |uploads|
    ensures |SaveSpec(uploads, tokens, dir, fs).0| == CountAccepted(uploads)
    decreases |uploads|
  {
    if uploads != [] {
      var n := |uploads| - 1;
      SavedCount(uploads[..n], tokens[..n], dir, fs);
      WritesPrefix(uploads, tokens, dir, n);
    }
  }

  /** Every saved path lies in `dir`, keeps a supported extension and has a
      stem drawn from `[a-z0-9_-]`. */
  lemma {:induction false} SavedWellNamed(uploads: seq<Upload>, tokens: seq<string>, dir: string, fs: Files)
    requires |tokens| == |uploads|
    requires forall i :: 0 <= i < |tokens| ==> IsHexToken(tokens[i], 6)
    ensures AllWellNamed(dir, SaveSpec(uploads, tokens, dir, fs).0)
    decreases |uploads|
  {
    if uploads != [] {
      var n := |uploads| - 1;
      SavedWellNamed(uploads[..n], tokens[..n], dir, fs);
      WritesPrefix(uploads, tokens, dir, n);
      var prev := SaveSpec(uploads[..n], tokens[..n], dir, fs).0;
      if Accepts(uploads[n]) {
        var p := SavedPath(dir, uploads[n], tokens[n]);
        SavedPathWellNamed(dir, uploads[n], tokens[n]);
        assert (prev + [p])[..|prev|] == prev;
      }
    }
  }

  /** The loop of `save_uploaded_files` over the uploads' writes. */
  method WriteAll(ws: seq<Write>, fs: Files) returns (saved: seq<string>, fs': Files)
    ensures (saved, fs') == Apply(ws, fs)
  {
    saved, fs' := [], fs;
    for i := 0 to |ws|
      invariant (saved, fs') == Apply(ws[..i], fs)
    {
      assert ws[..i + 1][..i] == ws[..i];
      var w := ws[i];
      if w.target.None? {
        continue;
      }
      fs' := fs'[w.target.value := w.data];
      saved := saved + [w.target.value];
    }
    assert ws[..|ws|] == ws;
  }

  /** `save_uploaded_files(uploaded_files, target_dir)`: each upload whose
      lower-cased suffix is supported is written under a sanitised, randomised
      name and its path appended; others are skipped. `tokens[i]` is the
      `uuid4().hex[:6]` drawn when upload `i` is accepted. A directory that
      cannot be created is re-raised as `DocumentPortalException`. */
  method SaveUploadedFiles(uploads: seq<Upload>, tokens: seq<string>, dir: string, dirWritable: bool, fs: Files)
    returns (r: Result<seq<string>>, fs': Files)
    requires |tokens| == |uploads|
    ensures !dirWritable ==> r == Err("Failed to save uploaded files") && fs' == fs
    ensures dirWritable ==> r == Ok(SaveSpec(uploads, tokens, dir, fs).0) && fs' == SaveSpec(uploads, tokens, dir, fs).1
  {
    if !dirWritable {
      return Err("Failed to save uploaded files"), fs;
    }
    var saved;
    saved, fs' := WriteAll(Writes(uploads, tokens, dir), fs);
    r := Ok(saved);
  }

  /** When no upload has a supported extension nothing is written and no path is returned. */
  lemma {:induction false} NothingAcceptedNothingSaved(uploads: seq<Upload>, tokens: seq<string>, dir: string, fs: Files)
    requires |tokens| == |uploads|
    requires forall i :: 0 <= i < |uploads| ==> !Accepts(uploads[i])
    ensures SaveSpec(uploads, tokens, dir, fs) == ([], fs)
    decreases |uploads|
  {
    if uploads != [] {
      var n := |uploads| - 1;
      NothingAcceptedNothingSaved(uploads[..n], tokens[..n], dir, fs);
      WritesPrefix(uploads, tokens, dir, n);
    }
  }
}
