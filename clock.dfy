/** Times of day as the tracker stores them: zero-padded 24-hour "HH:MM"
    strings. The app orders them with string comparison, turns them into
    minutes with `split(':').map(Number)`, and buckets them by their
    two-character hour prefix. */
module Clock {

  predicate IsDigit(c: char) {
    '0' <= c <= '9'
  }

  function DigitValue(c: char): (d: nat)
    requires IsDigit(c)
    ensures d < 10
  {
    c as int - '0' as int
  }

  function DigitChar(d: nat): (c: char)
    requires d < 10
    ensures IsDigit(c) && DigitValue(c) == d
  {
    (d + '0' as int) as char
  }

  /** A well-formed time-of-day string: what a time input and `format(…, 'HH:mm')` produce. */
  predicate IsClock(t: string) {
    && |t| == 5
    && IsDigit(t[0]) && IsDigit(t[1]) && t[2] == ':' && IsDigit(t[3]) && IsDigit(t[4])
    && 10 * DigitValue(t[0]) + DigitValue(t[1]) < 24
    && DigitValue(t[3]) < 6
  }

  /** The hour a clock string names. */
  function Hour(t: string): nat
    requires IsClock(t)
  {
    10 * DigitValue(t[0]) + DigitValue(t[1])
  }

  /** `h * 60 + m` for `[h, m] = t.split(':').map(Number)`; 0 for a string that
      is not a clock (where the source computes NaN). */
  function Minutes(t: string): (m: int)
    ensures IsClock(t) ==> 0 <= m < 1440 && m / 60 == Hour(t)
    ensures !IsClock(t) ==> m == 0
  {
    if IsClock(t) then Hour(t) * 60 + 10 * DigitValue(t[3]) + DigitValue(t[4]) else 0
  }

  /** `format(setHours(0, m), 'HH:mm')`: a minute of the day back as a clock string. */
  function FormatClock(m: int): (t: string)
    requires 0 <= m < 1440
    ensures IsClock(t)
  {
    var h, mm := m / 60, m % 60;
    [DigitChar(h / 10), DigitChar(h % 10), ':', DigitChar(mm / 10), DigitChar(mm % 10)]
  }

  /** `format(hour, 'HH')`: the two-character prefix of the clocks in hour `h`. */
  function HourLabel(h: nat): (p: string)
    requires h < 24
    ensures |p| == 2 && IsDigit(p[0]) && IsDigit(p[1])
    ensures 10 * DigitValue(p[0]) + DigitValue(p[1]) == h
  {
    [DigitChar(h / 10), DigitChar(h % 10)]
  }

  /** `s.startsWith(p)`. */
  predicate StartsWith(s: string, p: string) {
    |p| <= |s| && s[..|p|] == p
  }

  /** `a.localeCompare(b) <= 0`, as code-point lexicographic order. */
  predicate LexLe(a: string, b: string) {
    a == [] || (b != [] && (a[0] < b[0] || (a[0] == b[0] && LexLe(a[1..], b[1..]))))
  }

  /** Reading a clock and formatting it again gives the same string. */
  lemma ClockRoundTrip(t: string)
    requires IsClock(t)
    ensures FormatClock(Minutes(t)) == t
  {
    var m := Minutes(t);
    var d0, d1, d3, d4 := DigitValue(t[0]), DigitValue(t[1]), DigitValue(t[3]), DigitValue(t[4]);
    assert m == (10 * d0 + d1) * 60 + (10 * d3 + d4);
    assert m / 60 == 10 * d0 + d1 && m % 60 == 10 * d3 + d4;
    var f := FormatClock(m);
    assert f[0] == t[0] && f[1] == t[1] && f[3] == t[3] && f[4] == t[4];
  }

  /** Formatting a minute of the day and reading it back gives the same minute. */
  lemma MinutesRoundTrip(m: int)
    requires 0 <= m < 1440
    ensures Minutes(FormatClock(m)) == m
  {
    var t := FormatClock(m);
    assert Hour(t) == m / 60;
    assert 10 * DigitValue(t[3]) + DigitValue(t[4]) == m % 60;
  }

  /** The hour prefix a clock starts with is the prefix of its own hour and no other. */
  lemma HourPrefix(t: string, h: nat)
    requires IsClock(t) && h < 24
    ensures StartsWith(t, HourLabel(h)) <==> Hour(t) == h
  {
    var p := HourLabel(h);
    if Hour(t) == h {
      assert DigitValue(t[0]) == h / 10 && DigitValue(t[1]) == h % 10;
      assert t[0] == p[0] && t[1] == p[1];
      assert t[..2] == p;
    }
    if StartsWith(t, p) {
      assert t[0] == t[..2][0] == p[0] && t[1] == t[..2][1] == p[1];
    }
  }

  /** On clock strings, string order is time order: sorting by `localeCompare`
      finds the earliest and the latest time. */
  lemma ClockOrder(a: string, b: string)
    requires IsClock(a) && IsClock(b)
    ensures LexLe(a, b) <==> Minutes(a) <= Minutes(b)
  {
    var a1, b1 := a[1..], b[1..];
    var a2, b2 := a1[1..], b1[1..];
    var a3, b3 := a2[1..], b2[1..];
    var a4, b4 := a3[1..], b3[1..];
    var a5, b5 := a4[1..], b4[1..];
    assert a5 == [] && LexLe(a5, b5);
    assert LexLe(a4, b4) <==> a[4] <= b[4];
    assert LexLe(a3, b3) <==> a[3] < b[3] || (a[3] == b[3] && a[4] <= b[4]);
    assert LexLe(a2, b2) <==> LexLe(a3, b3);
    assert LexLe(a1, b1) <==> a[1] < b[1] || (a[1] == b[1] && LexLe(a2, b2));
    assert LexLe(a, b) <==> a[0] < b[0] || (a[0] == b[0] && LexLe(a1, b1));
  }

  lemma LexLeReflexive(a: string)
    ensures LexLe(a, a)
  {
  }

  lemma {:induction false} LexLeTotal(a: string, b: string)
    ensures LexLe(a, b) || LexLe(b, a)
  {
    if a != [] && b != [] && a[0] == b[0] {
      LexLeTotal(a[1..], b[1..]);
    }
  }

  lemma {:induction false} LexLeTransitive(a: string, b: string, c: string)
    requires LexLe(a, b) && LexLe(b, c)
    ensures LexLe(a, c)
  {
    if a != [] && b != [] && c != [] && a[0] == b[0] == c[0] {
      LexLeTransitive(a[1..], b[1..], c[1..]);
    }
  }

  lemma {:induction false} LexLeAntisymmetric(a: string, b: string)
    requires LexLe(a, b) && LexLe(b, a)
    ensures a == b
  {
    if a != [] && b != [] {
      LexLeAntisymmetric(a[1..], b[1..]);
      assert a == [a[0]] + a[1..];
      assert b == [b[0]] + b[1..];
    }
  }

  /** The first element after sorting ascending: the lexicographically least string. */
  function LexMin(ts: seq<string>): (r: string)
    requires |ts| > 0
    ensures r in ts
    ensures forall i :: 0 <= i < |ts| ==> LexLe(r, ts[i])
  {
    if |ts| == 1 then LexLeReflexive(ts[0]); ts[0]
    else
      var m := LexMin(ts[1..]);
      if LexLe(ts[0], m) then
        LexLeReflexive(ts[0]);
        assert forall i :: 1 <= i < |ts| ==> LexLe(m, ts[i]) by {
          assert forall i :: 1 <= i < |ts| ==> ts[i] == ts[1..][i - 1];
        }
        LexLeBelowAll(ts[0], m, ts);
        ts[0]
      else
        LexLeTotal(ts[0], m);
        m
  }

  /** The first element after sorting descending: the lexicographically greatest string. */
  function LexMax(ts: seq<string>): (r: string)
    requires |ts| > 0
    ensures r in ts
    ensures forall i :: 0 <= i < |ts| ==> LexLe(ts[i], r)
  {
    if |ts| == 1 then LexLeReflexive(ts[0]); ts[0]
    else
      var m := LexMax(ts[1..]);
      if LexLe(m, ts[0]) then
        LexLeReflexive(ts[0]);
        assert forall i :: 1 <= i < |ts| ==> LexLe(ts[i], m) by {
          assert forall i :: 1 <= i < |ts| ==> ts[i] == ts[1..][i - 1];
        }
        LexLeAboveAll(ts[0], m, ts);
        ts[0]
      else
        LexLeTotal(ts[0], m);
        m
  }

  /** Of two ordered strings the first is the least and the second the greatest. */
  lemma LexPair(a: string, b: string)
    requires LexLe(a, b)
    ensures LexMin([a, b]) == a && LexMax([a, b]) == b
  {
    assert [a, b][1..] == [b];
    if LexLe(b, a) {
      LexLeAntisymmetric(a, b);
    }
  }

  lemma LexLeBelowAll(a: string, m: string, ts: seq<string>)
    requires |ts| > 0 && ts[0] == a && LexLe(a, a) && LexLe(a, m)
    requires forall i :: 1 <= i < |ts| ==> LexLe(m, ts[i])
    ensures forall i :: 0 <= i < |ts| ==> LexLe(a, ts[i])
  {
    forall i | 1 <= i < |ts| ensures LexLe(a, ts[i]) {
      LexLeTransitive(a, m, ts[i]);
    }
  }

  lemma LexLeAboveAll(a: string, m: string, ts: seq<string>)
    requires |ts| > 0 && ts[0] == a && LexLe(a, a) && LexLe(m, a)
    requires forall i :: 1 <= i < |ts| ==> LexLe(ts[i], m)
    ensures forall i :: 0 <= i < |ts| ==> LexLe(ts[i], a)
  {
    forall i | 1 <= i < |ts| ensures LexLe(ts[i], a) {
      LexLeTransitive(ts[i], m, a);
    }
  }
}
