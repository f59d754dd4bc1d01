/** Python's ordering of strings (code point by code point, a proper prefix
    first) and `sorted()` over a list of file names, as src/doc_compare uses
    them to list a directory in a fixed order. */
module NameOrder {

  /** `a <= b` on Python strings. */
  predicate LexLe(a: string, b: string) {
    a == [] || (b != [] && (a[0] < b[0] || (a[0] == b[0] && LexLe(a[1..], b[1..]))))
  }

  /** Any two strings are ordered one way or the other. */
  lemma {:induction false} LexTotal(a: string, b: string)
    ensures LexLe(a, b) || LexLe(b, a)
  {
    if a != [] && b != [] && a[0] == b[0] {
      LexTotal(a[1..], b[1..]);
    }
  }

  /** Strings ordered both ways are equal. */
  lemma {:induction false} LexAntisymmetric(a: string, b: string)
    requires LexLe(a, b) && LexLe(b, a)
    ensures a == b
  {
    if a != [] && b != [] {
      LexAntisymmetric(a[1..], b[1..]);
      assert a == [a[0]] + a[1..] && b == [b[0]] + b[1..];
    }
  }

  lemma {:induction false} LexTransitive(a: string, b: string, c: string)
    requires LexLe(a, b) && LexLe(b, c)
    ensures LexLe(a, c)
  {
    if a != [] && a[0] == b[0] && b[0] == c[0] {
      LexTransitive(a[1..], b[1..], c[1..]);
    }
  }

  /** Each name is no greater than the next one. */
  predicate Ascending(s: seq<string>)
    decreases |s|
  {
    |s| <= 1 || (LexLe(s[0], s[1]) && Ascending(s[1..]))
  }

  /** In an ascending list every name is no greater than every later one. */
  lemma {:induction false} AscendingPairwise(s: seq<string>)
    requires Ascending(s)
    ensures forall i, j :: 0 <= i <= j < |s| ==> LexLe(s[i], s[j])
  {
    if s != [] {
      AscendingPairwise(s[1..]);
      forall i, j | 0 <= i <= j < |s| ensures LexLe(s[i], s[j]) {
        if i == j {
          LexReflexive(s[i]);
        } else if i > 0 {
          assert s[i] == s[1..][i - 1] && s[j] == s[1..][j - 1];
        } else {
          assert LexLe(s[1..][0], s[1..][j - 1]);
          LexTransitive(s[0], s[1], s[j]);
        }
      }
    }
  }

  lemma {:induction false} LexReflexive(a: string)
    ensures LexLe(a, a)
  {
    if a != [] {
      LexReflexive(a[1..]);
    }
  }

  /** `x` inserted into an ascending list before the first greater-or-equal name. */
  function Insert(x: string, s: seq<string>): (r: seq<string>)
    requires Ascending(s)
    ensures Ascending(r)
    ensures multiset(r) == multiset(s) + multiset{x}
    ensures r[0] == x || (s != [] && r[0] == s[0])
  {
    if s == [] || LexLe(x, s[0]) then
      assert ([x] + s)[1..] == s;
      [x] + s
    else
      LexTotal(x, s[0]);
      var t := Insert(x, s[1..]);
      var r := [s[0]] + t;
      assert r[1..] == t;
      assert s == [s[0]] + s[1..];
      r
  }

  /** `sorted(names)`. */
  function Sorted(names: seq<string>): (r: seq<string>)
    ensures Ascending(r)
    ensures multiset(r) == multiset(names)
  {
    if names == [] then []
    else
      var n := |names| - 1;
      assert names == names[..n] + [names[n]];
      Insert(names[n], Sorted(names[..n]))
  }

  /** The first name of an ascending list is no greater than any of its names. */
  lemma HeadIsLeast(s: seq<string>, x: string)
    requires Ascending(s) && x in s
    ensures LexLe(s[0], x)
  {
    AscendingPairwise(s);
    var i :| 0 <= i < |s| && s[i] == x;
  }

  lemma TailMultiset(s: seq<string>)
    requires s != []
    ensures multiset(s[1..]) == multiset(s) - multiset{s[0]}
  {
    assert s == [s[0]] + s[1..];
  }

  /** Two ascending lists of the same names start with the same name. */
  lemma SameHead(a: seq<string>, b: seq<string>)
    requires Ascending(a) && Ascending(b) && multiset(a) == multiset(b) && a != []
    ensures b != [] && a[0] == b[0]
  {
    assert a[0] in multiset(b);
    assert b[0] in multiset(a);
    HeadIsLeast(a, b[0]);
    HeadIsLeast(b, a[0]);
    LexAntisymmetric(a[0], b[0]);
  }

  /** An ascending list is determined by its names: listing a directory in any
      order and sorting gives the same result. */
  lemma {:induction false} AscendingUnique(a: seq<string>, b: seq<string>)
    requires Ascending(a) && Ascending(b) && multiset(a) == multiset(b)
    ensures a == b
    decreases |a|
  {
    if a == [] {
      assert |b| == |multiset(b)| == 0;
    } else {
      SameHead(a, b);
      TailMultiset(a);
      TailMultiset(b);
      AscendingUnique(a[1..], b[1..]);
      assert a == [a[0]] + a[1..] && b == [b[0]] + b[1..];
    }
  }

  /** `sorted` ignores the order of its input. */
  lemma SortedIgnoresOrder(names: seq<string>, names': seq<string>)
    requires multiset(names) == multiset(names')
    ensures Sorted(names) == Sorted(names')
  {
    AscendingUnique(Sorted(names), Sorted(names'));
  }
}
