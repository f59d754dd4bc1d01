/** The parts of Python's `str`, `pathlib` and `os.path` behaviour that the
    portal's own logic depends on, stated over `seq<char>`. */
module PyText {

  // ---------------------------------------------------------------- whitespace

  /** Python's `str.isspace` for a single character. */
  predicate IsSpace(c: char) {
    || ('\t' <= c <= '\r')
    || ('\U{1C}' <= c <= ' ')
    || c == '\U{85}' || c == '\U{A0}' || c == '\U{1680}'
    || ('\U{2000}' <= c <= '\U{200A}')
    || c == '\U{2028}' || c == '\U{2029}' || c == '\U{202F}' || c == '\U{205F}' || c == '\U{3000}'
  }

  /** `s.lstrip()`: the longest suffix of `s` that does not start with whitespace. */
  function StripLeft(s: string): (r: string)
    ensures |r| <= |s| && r == s[|s| - |r|..]
    ensures r == [] || !IsSpace(r[0])
    ensures forall i :: 0 <= i < |s| - |r| ==> IsSpace(s[i])
  {
    if s != [] && IsSpace(s[0]) then StripLeft(s[1..]) else s
  }

  /** `s.rstrip()`: the longest prefix of `s` that does not end with whitespace. */
  function StripRight(s: string): (r: string)
    ensures |r| <= |s| && r == s[..|r|]
    ensures r == [] || !IsSpace(r[|r| - 1])
    ensures forall i :: |r| <= i < |s| ==> IsSpace(s[i])
  {
    if s != [] && IsSpace(s[|s| - 1]) then StripRight(s[..|s| - 1]) else s
  }

  /** `s.strip()`. */
  function Strip(s: string): string {
    StripRight(StripLeft(s))
  }

  /** `s.strip()` is empty (falsy) exactly when every character of `s` is whitespace. */
  lemma StripEmptyIffBlank(s: string)
    ensures Strip(s) == [] <==> forall i :: 0 <= i < |s| ==> IsSpace(s[i])
  {
    var l := StripLeft(s);
    if Strip(s) == [] {
      assert l == [];
    } else {
      var r := Strip(s);
      assert r[0] == l[0];
      assert s[|s| - |l|] == l[0];
    }
  }

  /** `s` has a character that is not whitespace. */
  predicate HasText(s: string) {
    s != [] && (!IsSpace(s[0]) || HasText(s[1..]))
  }

  lemma {:induction false} HasTextIffNotBlank(s: string)
    ensures HasText(s) <==> exists i :: 0 <= i < |s| && !IsSpace(s[i])
  {
    if s != [] {
      HasTextIffNotBlank(s[1..]);
      if exists i :: 0 <= i < |s| && !IsSpace(s[i]) {
        var i :| 0 <= i < |s| && !IsSpace(s[i]);
        if i > 0 {
          assert !IsSpace(s[1..][i - 1]);
        }
      }
      if exists i :: 0 <= i < |s[1..]| && !IsSpace(s[1..][i]) {
        var i :| 0 <= i < |s[1..]| && !IsSpace(s[1..][i]);
        assert !IsSpace(s[i + 1]);
      }
    }
  }

  /** `s.strip()` is truthy exactly when `s` has a character that is not whitespace. */
  lemma StripTruthy(s: string)
    ensures Strip(s) != "" <==> HasText(s)
  {
    StripEmptyIffBlank(s);
    HasTextIffNotBlank(s);
  }

  // ---------------------------------------------------------------- case

  /** Lower-casing of one character: ASCII letters, and U+212A KELVIN SIGN, the
      one non-ASCII character whose lower-case form is ASCII ("k"). */
  function LowerChar(c: char): char {
    if 'A' <= c <= 'Z' then (c as int + 32) as char
    else if c == '\U{212A}' then 'k'
    else c
  }

  /** `s.lower()`, character by character. */
  function Lower(s: string): (r: string)
    ensures |r| == |s|
  {
    if s == [] then [] else [LowerChar(s[0])] + Lower(s[1..])
  }

  /** Lower-casing works character by character. */
  lemma {:induction false} LowerAt(s: string)
    ensures forall i :: 0 <= i < |s| ==> Lower(s)[i] == LowerChar(s[i])
  {
    if s != [] {
      LowerAt(s[1..]);
      assert forall i :: 0 < i < |s| ==> Lower(s)[i] == Lower(s[1..])[i - 1];
    }
  }

  /** Upper-casing of one ASCII letter. */
  function UpperChar(c: char): char {
    if 'a' <= c <= 'z' then (c as int - 32) as char else c
  }

  /** `s.upper()` on ASCII letters. */
  function Upper(s: string): (r: string)
    ensures |r| == |s|
    ensures forall i :: 0 <= i < |s| ==> r[i] == UpperChar(s[i])
  {
    if s == [] then [] else [UpperChar(s[0])] + Upper(s[1..])
  }

  // ---------------------------------------------------------------- searching

  /** `s.startswith(p)`. */
  predicate StartsWith(s: string, p: string) {
    |p| <= |s| && s[..|p|] == p
  }

  /** `s.endswith(p)`. */
  predicate EndsWith(s: string, p: string) {
    |p| <= |s| && s[|s| - |p|..] == p
  }

  /** `s.rfind(c)`: the last index holding `c`, or -1. */
  function Rfind(s: string, c: char): (i: int)
    ensures -1 <= i < |s|
    ensures i >= 0 ==> s[i] == c
    ensures forall j :: i < j < |s| ==> s[j] != c
  {
    if s == [] then -1
    else if s[|s| - 1] == c then |s| - 1
    else Rfind(s[..|s| - 1], c)
  }

  /** `sep.join(parts)`. */
  function Join(sep: string, parts: seq<string>): string {
    if parts == [] then ""
    else if |parts| == 1 then parts[0]
    else Join(sep, parts[..|parts| - 1]) + sep + parts[|parts| - 1]
  }

  /** Joining a concatenation: the two joins with one separator between them. */
  lemma {:induction false} JoinAppend(sep: string, a: seq<string>, b: seq<string>)
    requires a != [] && b != []
    ensures Join(sep, a + b) == Join(sep, a) + sep + Join(sep, b)
    decreases |b|
  {
    var ab := a + b;
    if |b| == 1 {
      assert ab[..|ab| - 1] == a;
    } else {
      var b', last := b[..|b| - 1], b[|b| - 1];
      assert ab[..|ab| - 1] == a + b' && ab[|ab| - 1] == last;
      JoinAppend(sep, a, b');
      var x, y := Join(sep, a), Join(sep, b');
      calc {
        Join(sep, ab);
        Join(sep, a + b') + sep + last;
        x + sep + y + sep + last;
        { assert x + sep + y + sep + last == x + sep + (y + sep + last); }
        x + sep + (y + sep + last);
        x + sep + Join(sep, b);
      }
    }
  }

  // ---------------------------------------------------------------- paths

  /** `PurePath(p).name`: the final component, never containing a slash.
      `pathlib` drops empty and "." components when it parses a path, so a
      trailing slash or "/." is skipped. */
  function PathName(p: string): (n: string)
    ensures '/' !in n
    ensures n != "."
    decreases |p|
  {
    var i := Rfind(p, '/');
    var last := p[i + 1..];
    if last != "" && last != "." then last
    else if i < 0 then ""
    else PathName(p[..i])
  }

  /** The index of the dot that starts the suffix of a final component, or -1:
      a dot counts when it is neither the first nor the last character. */
  function SuffixDot(n: string): (i: int)
    ensures i == -1 || 0 < i < |n| - 1
  {
    var i := Rfind(n, '.');
    if 0 < i < |n| - 1 then i else -1
  }

  /** `PurePath(p).suffix`. */
  function Suffix(p: string): (r: string)
    ensures r == "" || (r[0] == '.' && |r| >= 2 && '.' !in r[1..])
  {
    var n := PathName(p);
    var i := SuffixDot(n);
    if i < 0 then "" else n[i..]
  }

  /** `PurePath(p).stem`. */
  function Stem(p: string): string {
    var n := PathName(p);
    var i := SuffixDot(n);
    if i < 0 then n else n[..i]
  }

  /** The stem followed by the suffix is the final component again. */
  lemma StemSuffix(p: string)
    ensures Stem(p) + Suffix(p) == PathName(p)
  {
    var n := PathName(p);
    var i := SuffixDot(n);
    if i >= 0 {
      assert n[..i] + n[i..] == n;
    }
  }

  /** `os.path.basename(p)`: everything after the last slash. */
  function Basename(p: string): (b: string)
    ensures '/' !in b
    ensures EndsWith(p, b)
  {
    p[Rfind(p, '/') + 1..]
  }

  /** `os.path.isabs(p)`: the path starts with a slash. */
  predicate IsAbsolute(p: string) {
    p != [] && p[0] == '/'
  }

  /** The path ends with a slash. */
  predicate EndsWithSep(p: string) {
    p != [] && p[|p| - 1] == '/'
  }

  /** `os.path.join(a, b)` for two POSIX path strings. */
  function OsPathJoin(a: string, b: string): string {
    if IsAbsolute(b) then b
    else if a == "" || EndsWithSep(a) then a + b
    else a + "/" + b
  }

  /** Joining one directory with two different relative names gives two
      different paths. */
  lemma OsPathJoinInjective(a: string, b: string, b': string)
    requires !IsAbsolute(b) && !IsAbsolute(b') && b != b'
    ensures OsPathJoin(a, b) != OsPathJoin(a, b')
  {
    var sep := if a == "" || EndsWithSep(a) then "" else "/";
    assert OsPathJoin(a, b) == (a + sep) + b;
    assert OsPathJoin(a, b') == (a + sep) + b';
    assert ((a + sep) + b)[|a + sep|..] == b;
    assert ((a + sep) + b')[|a + sep|..] == b';
  }

  /** Under a non-empty directory that does not end in a slash, `os.path.join`
      with a relative name is `Path(dir) / name`. */
  lemma OsPathJoinChild(a: string, b: string)
    requires a != "" && !EndsWithSep(a) && !IsAbsolute(b)
    ensures OsPathJoin(a, b) == Child(a, b)
  {
  }

  /** `Path(dir) / name` for a name that is a single component. */
  function Child(dir: string, name: string): string {
    dir + "/" + name
  }

  /** The final component of `Path(dir) / name` is `name` itself. */
  lemma ChildName(dir: string, name: string)
    requires name != "" && name != "." && '/' !in name
    ensures PathName(Child(dir, name)) == name
  {
    var s := Child(dir, name);
    var i := Rfind(s, '/');
    assert s[|dir|] == '/';
    assert forall j :: |dir| < j < |s| ==> s[j] == name[j - |dir| - 1];
    assert i == |dir|;
    assert s[i + 1..] == name;
  }

  /** A file name made of a dot-free base and a one-dot extension has that
      extension as its suffix and the base as its stem. */
  lemma SuffixOfChild(dir: string, base: string, ext: string)
    requires base != "" && '/' !in base && '.' !in base
    requires |ext| >= 2 && ext[0] == '.' && '/' !in ext && '.' !in ext[1..]
    ensures Suffix(Child(dir, base + ext)) == ext
    ensures Stem(Child(dir, base + ext)) == base
  {
    var n := base + ext;
    assert '/' !in n by {
      forall k | 0 <= k < |n| ensures n[k] != '/' {
        if k >= |base| { assert n[k] == ext[k - |base|]; }
      }
    }
    ChildName(dir, n);
    var i := Rfind(n, '.');
    assert n[|base|] == '.';
    assert forall j :: |base| < j < |n| ==> n[j] == ext[1..][j - |base| - 1];
    assert i == |base|;
    assert n[i..] == ext && n[..i] == base;
  }

  // ---------------------------------------------------------------- numbers

  predicate IsDigit(c: char) {
    '0' <= c <= '9'
  }

  predicate AllDigits(s: string) {
    forall i :: 0 <= i < |s| ==> IsDigit(s[i])
  }

  function DigitChar(d: nat): (c: char)
    requires d < 10
    ensures IsDigit(c)
  {
    ('0' as int + d) as char
  }

  function DigitValue(c: char): (d: nat)
    requires IsDigit(c)
    ensures d < 10
  {
    c as int - '0' as int
  }

  /** The number that a string of decimal digits denotes. */
  function DigitsValue(s: string): nat
    requires AllDigits(s)
  {
    if s == [] then 0 else DigitsValue(s[..|s| - 1]) * 10 + DigitValue(s[|s| - 1])
  }

  /** `str(n)` for a natural number. */
  function Decimal(n: nat): (s: string)
    ensures |s| >= 1 && AllDigits(s)
  {
    if n < 10 then [DigitChar(n)] else Decimal(n / 10) + [DigitChar(n % 10)]
  }

  /** `str(n)` reads back as `n`. */
  lemma {:induction false} DecimalRoundTrip(n: nat)
    ensures DigitsValue(Decimal(n)) == n
  {
    if n >= 10 {
      DecimalRoundTrip(n / 10);
      var s := Decimal(n);
      assert s[..|s| - 1] == Decimal(n / 10);
    }
  }

  function Pow10(w: nat): (p: nat)
    ensures p >= 1
  {
    if w == 0 then 1 else 10 * Pow10(w - 1)
  }

  /** `n` written with exactly `width` digits, zero-padded on the left
      (`strftime`'s `%Y`, `%m`, `%d`, `%H`, `%M`, `%S`). */
  function Pad(n: nat, width: nat): (s: string)
    ensures |s| == width && AllDigits(s)
  {
    if width == 0 then "" else Pad(n / 10, width - 1) + [DigitChar(n % 10)]
  }

  /** A zero-padded number reads back as the number when it fits the width. */
  lemma {:induction false} PadRoundTrip(n: nat, width: nat)
    requires n < Pow10(width)
    ensures DigitsValue(Pad(n, width)) == n
  {
    if width > 0 {
      PadRoundTrip(n / 10, width - 1);
      var s := Pad(n, width);
      assert s[..|s| - 1] == Pad(n / 10, width - 1);
    }
  }

  /** `uuid.uuid4().hex[:n]`: `n` lower-case hexadecimal digits. */
  predicate IsHexToken(s: string, n: nat) {
    |s| == n && forall i :: 0 <= i < |s| ==> (IsDigit(s[i]) || 'a' <= s[i] <= 'f')
  }
}
