/** costs.py: the customer-journey graph over the bank marketing table and
    the reading of the model's reply that picks one of the candidate paths.
    Only the integer parts are modelled: which rows are kept, how often each
    directed edge job -> contact -> poutcome -> y is seen, and how the reply
    text becomes a path. */
module Costs {
  import opened Wrappers
  import opened PyText

  // ---------------------------------------------------------------- rows

  /** A cell of the table as pandas reads it: missing, or its text. */
  datatype Cell = NA | Val(s: string)

  /** The four columns the graph is built from. */
  datatype Row = Row(job: Cell, contact: Cell, poutcome: Cell, y: Cell)

  /** `str(p).strip().lower()` of a present cell. */
  function Folded(c: Cell): string
    requires c.Val?
  {
    Lower(Strip(c.s))
  }

  /** `pd.isna(p) or str(p).strip().lower() == "unknown"`. */
  predicate Invalid(c: Cell) {
    c.NA? || Folded(c) == "unknown"
  }

  /** The first skip: some cell of the path is missing or "unknown". */
  predicate HasInvalidCell(r: Row) {
    Invalid(r.job) || Invalid(r.contact) || Invalid(r.poutcome) || Invalid(r.y)
  }

  /** The second skip: a failed earlier campaign followed by a subscription. */
  predicate FailureThenYes(r: Row)
    requires !HasInvalidCell(r)
  {
    Folded(r.poutcome) == "failure" && Folded(r.y) == "yes"
  }

  /** The row survives both skips. */
  predicate Kept(r: Row) {
    !HasInvalidCell(r) && !FailureThenYes(r)
  }

  /** `[str(p).strip() for p in path]` of a kept row. */
  function Path(r: Row): (p: seq<string>)
    requires !HasInvalidCell(r)
    ensures |p| == 4
  {
    [Strip(r.job.s), Strip(r.contact.s), Strip(r.poutcome.s), Strip(r.y.s)]
  }

  // ---------------------------------------------------------------- edge counts

  type Edge = (string, string)

  /** The `count` attribute of an edge, 0 when the graph has no such edge. */
  function CountOf(m: map<Edge, nat>, e: Edge): nat {
    if e in m then m[e] else 0
  }

  /** One step of the inner loop: an existing edge's count goes up by one, a
      new edge is added with count 1. */
  function Bump(m: map<Edge, nat>, e: Edge): (m': map<Edge, nat>)
    ensures m'.Keys == m.Keys + {e}
    ensures CountOf(m', e) == CountOf(m, e) + 1
    ensures forall f :: f in m && f != e ==> m'[f] == m[f]
  {
    m[e := CountOf(m, e) + 1]
  }

  /** The consecutive pairs of a path, in order. */
  function PathEdges(p: seq<string>): (es: seq<Edge>)
    ensures |p| >= 1 ==> |es| == |p| - 1
  {
    if |p| <= 1 then [] else seq(|p| - 1, i requires 0 <= i < |p| - 1 => (p[i], p[i + 1]))
  }

  /** Counting each edge of a list in turn. */
  function BumpAll(m: map<Edge, nat>, es: seq<Edge>): map<Edge, nat> {
    if es == [] then m else Bump(BumpAll(m, es[..|es| - 1]), es[|es| - 1])
  }

  /** The graph after the rows, one after another. */
  function CountsSpec(rows: seq<Row>): map<Edge, nat> {
    if rows == [] then map[]
    else
      var m := CountsSpec(rows[..|rows| - 1]);
      var r := rows[|rows| - 1];
      if Kept(r) then BumpAll(m, PathEdges(Path(r))) else m
  }

  /** The graph-building loop of the script. */
  method BuildEdgeCounts(rows: seq<Row>) returns (counts: map<Edge, nat>)
    ensures counts == CountsSpec(rows)
  {
    counts := map[];
    for k := 0 to |rows|
      invariant counts == CountsSpec(rows[..k])
    {
      var row := rows[k];
      CountsSpecLast(rows[..k + 1]);
      assert rows[..k + 1][..k] == rows[..k];
      if HasInvalidCell(row) {
        continue;
      }
      if FailureThenYes(row) {
        continue;
      }
      counts := CountPath(counts, Path(row));
    }
    assert rows[..|rows|] == rows;
  }

  lemma CountsSpecLast(rows: seq<Row>)
    requires rows != []
    ensures var n := |rows| - 1;
      CountsSpec(rows) == if Kept(rows[n]) then BumpAll(CountsSpec(rows[..n]), PathEdges(Path(rows[n]))) else CountsSpec(rows[..n])
  {
  }

  /** The inner loop: each consecutive pair of the path, in order, counted. */
  method CountPath(counts: map<Edge, nat>, path: seq<string>) returns (counts': map<Edge, nat>)
    requires |path| >= 1
    ensures counts' == BumpAll(counts, PathEdges(path))
  {
    var edges := PathEdges(path);
    counts' := counts;
    for i := 0 to |path| - 1
      invariant counts' == BumpAll(counts, edges[..i])
    {
      assert edges[..i + 1][..i] == edges[..i];
      var e := (path[i], path[i + 1]);
      if e in counts' {
        counts' := counts'[e := counts'[e] + 1];
      } else {
        counts' := counts'[e := 1];
      }
    }
    assert edges[..|path| - 1] == edges;
  }

  /** How many times an edge occurs in a list of edges. */
  function Occurrences(es: seq<Edge>, e: Edge): nat {
    if es == [] then 0 else Occurrences(es[..|es| - 1], e) + (if es[|es| - 1] == e then 1 else 0)
  }

  lemma {:induction false} BumpAllCount(m: map<Edge, nat>, es: seq<Edge>, e: Edge)
    ensures CountOf(BumpAll(m, es), e) == CountOf(m, e) + Occurrences(es, e)
    ensures BumpAll(m, es).Keys == m.Keys + set i | 0 <= i < |es| :: es[i]
  {
    if es != [] {
      var n := |es| - 1;
      BumpAllCount(m, es[..n], e);
      assert (set i | 0 <= i < |es| :: es[i]) == (set i | 0 <= i < n :: es[..n][i]) + {es[n]};
    }
  }

  /** The kept rows, in order. */
  function KeptRows(rows: seq<Row>): (ks: seq<Row>)
    ensures |ks| <= |rows|
  {
    if rows == [] then []
    else
      var r := rows[|rows| - 1];
      KeptRows(rows[..|rows| - 1]) + (if Kept(r) then [r] else [])
  }

  /** How many times an edge occurs along the paths of the kept rows. */
  function RowOccurrences(rows: seq<Row>, e: Edge): nat {
    if rows == [] then 0
    else
      var r := rows[|rows| - 1];
      RowOccurrences(rows[..|rows| - 1], e) + (if Kept(r) then Occurrences(PathEdges(Path(r)), e) else 0)
  }

  /** Every edge's count is the number of times it occurs as a consecutive
      pair on the path of a kept row. */
  lemma {:induction false} CountsAreOccurrences(rows: seq<Row>, e: Edge)
    ensures CountOf(CountsSpec(rows), e) == RowOccurrences(rows, e)
  {
    if rows != [] {
      var n := |rows| - 1;
      CountsAreOccurrences(rows[..n], e);
      var r := rows[n];
      if Kept(r) {
        BumpAllCount(CountsSpec(rows[..n]), PathEdges(Path(r)), e);
      }
    }
  }

  /** The graph has exactly the edges that occur at least once. */
  lemma EdgeIffOccurs(rows: seq<Row>, e: Edge)
    ensures e in CountsSpec(rows) <==> RowOccurrences(rows, e) > 0
  {
    CountsAreOccurrences(rows, e);
    PositiveCounts(rows);
  }

  /** Every edge in the graph has count at least 1. */
  lemma {:induction false} PositiveCounts(rows: seq<Row>)
    ensures forall f :: f in CountsSpec(rows) ==> CountsSpec(rows)[f] >= 1
  {
    if rows != [] {
      var n := |rows| - 1;
      PositiveCounts(rows[..n]);
      var r := rows[n];
      if Kept(r) {
        BumpAllPositive(CountsSpec(rows[..n]), PathEdges(Path(r)));
      }
    }
  }

  lemma {:induction false} BumpAllPositive(m: map<Edge, nat>, es: seq<Edge>)
    requires forall f :: f in m ==> m[f] >= 1
    ensures forall f :: f in BumpAll(m, es) ==> BumpAll(m, es)[f] >= 1
  {
    if es != [] {
      BumpAllPositive(m, es[..|es| - 1]);
    }
  }

  /** Rows that are skipped leave no trace: the graph of a table is the graph
      of its kept rows alone. */
  lemma {:induction false} DroppedRowsIgnored(rows: seq<Row>)
    ensures CountsSpec(rows) == CountsSpec(KeptRows(rows))
  {
    if rows != [] {
      var n := |rows| - 1;
      DroppedRowsIgnored(rows[..n]);
      var r := rows[n];
      var ks := KeptRows(rows[..n]);
      if Kept(r) {
        assert KeptRows(rows) == ks + [r];
        assert (ks + [r])[..|ks|] == ks;
      } else {
        assert KeptRows(rows) == ks;
      }
    }
  }

  // ---------------------------------------------------------------- total count

  /** The sum of all edge counts. */
  ghost function Total(m: map<Edge, nat>): nat
    decreases |m.Keys|
  {
    if m == map[] then 0
    else
      var e :| e in m;
      assert |(m - {e}).Keys| < |m.Keys| by {
        assert (m - {e}).Keys == m.Keys - {e};
      }
      m[e] + Total(m - {e})
  }

  /** The sum does not depend on which edge is taken out first. */
  lemma {:induction false} TotalRemove(m: map<Edge, nat>, e: Edge)
    requires e in m
    ensures Total(m) == m[e] + Total(m - {e})
    decreases |m.Keys|
  {
    var d :| d in m && Total(m) == m[d] + Total(m - {d});
    if d != e {
      assert (m - {d}).Keys == m.Keys - {d};
      assert (m - {e}).Keys == m.Keys - {e};
      TotalRemove(m - {d}, e);
      TotalRemove(m - {e}, d);
      assert m - {d} - {e} == m - {e} - {d};
    }
  }

  lemma TotalBump(m: map<Edge, nat>, e: Edge)
    ensures Total(Bump(m, e)) == Total(m) + 1
  {
    var m' := Bump(m, e);
    TotalRemove(m', e);
    if e in m {
      TotalRemove(m, e);
      assert m' - {e} == m - {e};
    } else {
      assert m' - {e} == m;
    }
  }

  lemma {:induction false} TotalBumpAll(m: map<Edge, nat>, es: seq<Edge>)
    ensures Total(BumpAll(m, es)) == Total(m) + |es|
  {
    if es != [] {
      TotalBumpAll(m, es[..|es| - 1]);
      TotalBump(BumpAll(m, es[..|es| - 1]), es[|es| - 1]);
    }
  }

  /** Each kept row adds its three edges, so the counts add up to three
      times the number of kept rows. */
  lemma {:induction false} CountsTotal(rows: seq<Row>)
    ensures Total(CountsSpec(rows)) == 3 * |KeptRows(rows)|
  {
    if rows != [] {
      var n := |rows| - 1;
      CountsTotal(rows[..n]);
      var r := rows[n];
      if Kept(r) {
        TotalBumpAll(CountsSpec(rows[..n]), PathEdges(Path(r)));
      }
    }
  }

  // ---------------------------------------------------------------- reply parsing

  /** Digits, with single underscores allowed between two digits, as
      Python's `int()` accepts them. */
  predicate DigitGroups(s: string) {
    && s != [] && IsDigit(s[0])
    && (|s| == 1 || DigitGroups(s[1..]) || (s[1] == '_' && DigitGroups(s[2..])))
  }

  /** The numeral with its underscores removed. */
  function DropUnderscores(s: string): string {
    if s == [] then []
    else if s[0] == '_' then DropUnderscores(s[1..])
    else [s[0]] + DropUnderscores(s[1..])
  }

  lemma {:induction false} GroupsDigits(s: string)
    requires DigitGroups(s)
    ensures AllDigits(DropUnderscores(s))
  {
    if |s| > 1 {
      if DigitGroups(s[1..]) {
        GroupsDigits(s[1..]);
      } else {
        GroupsDigits(s[2..]);
        assert DropUnderscores(s[1..]) == DropUnderscores(s[2..]);
      }
    }
  }

  /** A plain run of digits is a numeral with nothing to remove. */
  lemma {:induction false} DigitsAreGroups(s: string)
    requires s != [] && AllDigits(s)
    ensures DigitGroups(s) && DropUnderscores(s) == s
  {
    if |s| > 1 {
      DigitsAreGroups(s[1..]);
      assert s == [s[0]] + s[1..];
    }
  }

  /** `int(t)` on a string with no surrounding whitespace: an optional sign,
      then digit groups; anything else raises. */
  function ParseSigned(t: string): Option<int> {
    var signed := t != [] && (t[0] == '+' || t[0] == '-');
    var body := if signed then t[1..] else t;
    if !DigitGroups(body) then None
    else
      GroupsDigits(body);
      var v: int := DigitsValue(DropUnderscores(body));
      Some(if signed && t[0] == '-' then -v else v)
  }

  /** `int(s)`: whitespace around the number is ignored. */
  function ParseInt(s: string): Option<int> {
    ParseSigned(Strip(s))
  }

  /** `str(n)` for any integer. */
  function Numeral(n: int): (s: string)
    ensures s != [] && !IsSpace(s[0]) && !IsSpace(s[|s| - 1])
  {
    if n < 0 then "-" + Decimal(-n) else Decimal(n)
  }

  /** A string with no whitespace at either end is its own strip. */
  lemma StripBare(s: string)
    requires s != [] && !IsSpace(s[0]) && !IsSpace(s[|s| - 1])
    ensures Strip(s) == s
  {
  }

  lemma ParseDecimal(m: nat)
    ensures ParseSigned(Decimal(m)) == Some(m)
  {
    var d := Decimal(m);
    DigitsAreGroups(d);
    DecimalRoundTrip(m);
  }

  lemma ParseNegativeDecimal(m: nat)
    ensures ParseSigned("-" + Decimal(m)) == Some(-(m as int))
  {
    var d := Decimal(m);
    DigitsAreGroups(d);
    DecimalRoundTrip(m);
    assert ("-" + d)[1..] == d;
  }

  /** `int(str(n)) == n`. */
  lemma ParseIntNumeral(n: int)
    ensures ParseInt(Numeral(n)) == Some(n)
  {
    StripBare(Numeral(n));
    if n < 0 {
      ParseNegativeDecimal(-n);
    } else {
      ParseDecimal(n);
    }
  }

  /** `int(reply.strip())`, `None` when the response carries no text or the
      text is not an integer. */
  function ReplyNumber(reply: Option<string>): Option<int> {
    if reply.Some? then ParseInt(reply.value) else None
  }

  /** `paths[r - 1]` for the number `r` of the reply, with Python's negative
      indexing; a reply that is not an integer, or one out of range, falls
      back to the first path, and there is no path to fall back to when the
      list is empty. */
  function ChooseIndex(paths: seq<seq<string>>, k: Option<int>): (r: Option<seq<string>>)
    ensures r.None? <==> paths == []
    ensures r.Some? ==> r.value in paths
    ensures k.Some? && 1 <= k.value <= |paths| ==> r == Some(paths[k.value - 1])
    ensures k.Some? && 1 - |paths| <= k.value <= 0 ==> r == Some(paths[|paths| + k.value - 1])
    ensures paths != [] && (k.None? || k.value > |paths| || k.value < 1 - |paths|) ==> r == Some(paths[0])
  {
    var n := |paths|;
    if k.Some? && -n <= k.value - 1 < n then
      var idx := k.value - 1;
      Some(if idx >= 0 then paths[idx] else paths[n + idx])
    else if paths != [] then Some(paths[0])
    else None
  }

  /** `query_llm_for_best_path`'s choice from the model's reply. */
  function ChoosePath(paths: seq<seq<string>>, reply: Option<string>): (r: Option<seq<string>>)
    ensures r.None? <==> paths == []
  {
    ChooseIndex(paths, ReplyNumber(reply))
  }

  /** Replying with the number printed before a path in the prompt selects
      that path. */
  lemma ChooseListedNumber(paths: seq<seq<string>>, i: nat)
    requires i < |paths|
    ensures ChoosePath(paths, Some(Decimal(i + 1))) == Some(paths[i])
  {
    ParseIntNumeral(i + 1);
    assert Numeral(i + 1) == Decimal(i + 1);
  }

  /** Replying `-j` counts from the end of the list (`0` is the last path). */
  lemma ChooseFromEnd(paths: seq<seq<string>>, j: nat)
    requires j < |paths|
    ensures ChoosePath(paths, Some(Numeral(-(j as int)))) == Some(paths[|paths| - 1 - j])
  {
    ParseIntNumeral(-(j as int));
  }
}
