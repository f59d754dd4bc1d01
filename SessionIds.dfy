/** Session identifiers and timestamped directory names. The clock value and the
    random hexadecimal token that the source obtains from `datetime.now()` and
    `uuid.uuid4()` are parameters here. */
module SessionIds {
  import opened PyText

  /** A wall-clock reading, already converted to the time zone the caller uses. */
  datatype Clock = Clock(year: nat, month: nat, day: nat, hour: nat, minute: nat, second: nat)

  /** The readings `datetime.now()` can give for years of four digits. */
  predicate ValidClock(t: Clock) {
    && 1000 <= t.year <= 9999
    && 1 <= t.month <= 12
    && 1 <= t.day <= 31
    && t.hour < 24
    && t.minute < 60
    && t.second < 60
  }

  /** `strftime('%Y%m%d_%H%M%S')`. */
  function Stamp(t: Clock): (s: string)
    ensures |s| == 15 && s[8] == '_'
  {
    Pad(t.year, 4) + Pad(t.month, 2) + Pad(t.day, 2) + "_" + Pad(t.hour, 2) + Pad(t.minute, 2) + Pad(t.second, 2)
  }

  /** Distinct valid readings give distinct stamps: the stamp can be read back. */
  lemma StampInjective(t: Clock, u: Clock)
    requires ValidClock(t) && ValidClock(u)
    requires Stamp(t) == Stamp(u)
    ensures t == u
  {
    var s, r := Stamp(t), Stamp(u);
    assert Pow10(2) == 100 && Pow10(4) == 10000;
    assert s[0..4] == Pad(t.year, 4) && r[0..4] == Pad(u.year, 4);
    assert s[4..6] == Pad(t.month, 2) && r[4..6] == Pad(u.month, 2);
    assert s[6..8] == Pad(t.day, 2) && r[6..8] == Pad(u.day, 2);
    assert s[9..11] == Pad(t.hour, 2) && r[9..11] == Pad(u.hour, 2);
    assert s[11..13] == Pad(t.minute, 2) && r[11..13] == Pad(u.minute, 2);
    assert s[13..15] == Pad(t.second, 2) && r[13..15] == Pad(u.second, 2);
    PadRoundTrip(t.year, 4); PadRoundTrip(u.year, 4);
    PadRoundTrip(t.month, 2); PadRoundTrip(u.month, 2);
    PadRoundTrip(t.day, 2); PadRoundTrip(u.day, 2);
    PadRoundTrip(t.hour, 2); PadRoundTrip(u.hour, 2);
    PadRoundTrip(t.minute, 2); PadRoundTrip(u.minute, 2);
    PadRoundTrip(t.second, 2); PadRoundTrip(u.second, 2);
  }

  /** `f"{prefix}_{stamp}_{hex}"`: the timestamped session id of
      utils/file_io.py, src/multidoc_chat and src/doc_analyzer. */
  function TimedId(prefix: string, t: Clock, hex: string): (id: string)
    ensures |id| == |prefix| + 17 + |hex|
  {
    prefix + "_" + Stamp(t) + "_" + hex
  }

  /** A timestamped id determines its prefix, its clock reading and its token. */
  lemma TimedIdInjective(p: string, t: Clock, h: string, p': string, t': Clock, h': string)
    requires ValidClock(t) && ValidClock(t')
    requires |h| == |h'|
    requires TimedId(p, t, h) == TimedId(p', t', h')
    ensures p == p' && t == t' && h == h'
  {
    var s := TimedId(p, t, h);
    var n := |p|;
    assert |p'| == n;
    assert s[..n] == p && s[..n] == p';
    assert s[n + 1..n + 16] == Stamp(t) && s[n + 1..n + 16] == Stamp(t');
    assert s[n + 17..] == h && s[n + 17..] == h';
    StampInjective(t, t');
  }

  /** `f"{prefix}_{hex}"`: the session id of src/document_ingestion. */
  function ShortId(prefix: string, hex: string): (id: string)
    ensures |id| == |prefix| + 1 + |hex|
  {
    prefix + "_" + hex
  }

  /** A short id determines its prefix and its token. */
  lemma ShortIdInjective(p: string, h: string, p': string, h': string)
    requires |h| == |h'|
    requires ShortId(p, h) == ShortId(p', h')
    ensures p == p' && h == h'
  {
    var s := ShortId(p, h);
    assert s[..|p|] == p && s[..|p'|] == p';
    assert s[|p| + 1..] == h && s[|p'| + 1..] == h';
  }

  /** `f"session_{now:%Y%m%d_%H%M%S}"`: the session folder of src/doc_compare/ingestion.py. */
  function DatedName(t: Clock): (name: string)
    ensures |name| == 23 && StartsWith(name, "session")
  {
    "session_" + Stamp(t)
  }
}
