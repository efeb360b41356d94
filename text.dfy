/**
 * The parts of Python's string handling that the timetable core relies on:
 * `str.strip()`, `str.strip(c)`, `str.split(sep)`, `str.split()`, `int(s)`,
 * decimal rendering of integers and the `02d` format.
 */
module Text {
  import opened Wrappers

  /** Python's `str.isspace()` on a single character. */
  predicate IsSpace(c: char)
  {
    ('\t' <= c <= '\r') || ('\U{1C}' <= c <= ' ') || c == '\U{85}' || c == '\U{A0}'
    || c == '\U{1680}' || ('\U{2000}' <= c <= '\U{200A}') || c == '\U{2028}' || c == '\U{2029}'
    || c == '\U{202F}' || c == '\U{205F}' || c == '\U{3000}'
  }

  /** `s.lstrip()`: drops the leading whitespace. */
  function TrimLeft(s: string): (r: string)
    ensures |r| <= |s| && r == s[|s| - |r|..]
    ensures forall k :: 0 <= k < |s| - |r| ==> IsSpace(s[k])
    ensures r != [] ==> !IsSpace(r[0])
  {
    if s != [] && IsSpace(s[0]) then TrimLeft(s[1..]) else s
  }

  /** `s.rstrip()`: drops the trailing whitespace. */
  function TrimRight(s: string): (r: string)
    ensures |r| <= |s| && r == s[..|r|]
    ensures forall k :: |r| <= k < |s| ==> IsSpace(s[k])
    ensures r != [] ==> !IsSpace(r[|r| - 1])
  {
    if s != [] && IsSpace(s[|s| - 1]) then TrimRight(s[..|s| - 1]) else s
  }

  /** `s.strip()`. */
  function Strip(s: string): string
  {
    TrimRight(TrimLeft(s))
  }

  /** `s.lstrip(c)` for a one-character argument. */
  function TrimCharLeft(s: string, c: char): (r: string)
    ensures |r| <= |s| && r == s[|s| - |r|..]
    ensures forall k :: 0 <= k < |s| - |r| ==> s[k] == c
    ensures r != [] ==> r[0] != c
  {
    if s != [] && s[0] == c then TrimCharLeft(s[1..], c) else s
  }

  /** `s.rstrip(c)` for a one-character argument. */
  function TrimCharRight(s: string, c: char): (r: string)
    ensures |r| <= |s| && r == s[..|r|]
    ensures forall k :: |r| <= k < |s| ==> s[k] == c
    ensures r != [] ==> r[|r| - 1] != c
  {
    if s != [] && s[|s| - 1] == c then TrimCharRight(s[..|s| - 1], c) else s
  }

  /** `s.strip(c)` for a one-character argument. */
  function StripChar(s: string, c: char): string
  {
    TrimCharRight(TrimCharLeft(s, c), c)
  }

  /** `sep.join(parts)`. */
  function Join(parts: seq<string>, sep: string): string
  {
    if |parts| == 0 then "" else if |parts| == 1 then parts[0] else parts[0] + sep + Join(parts[1..], sep)
  }

  /** Index of the first `c` in `s`, or `|s|` when there is none. */
  function IndexOf(s: string, c: char): (i: nat)
    ensures i <= |s| && c !in s[..i] && (i < |s| ==> s[i] == c)
  {
    if s == [] then 0 else if s[0] == c then 0 else 1 + IndexOf(s[1..], c)
  }

  /**
   * `s.split(sep)` for a one-character separator: the fields between the
   * separators, empty fields included, so there is always at least one.
   */
  function Split(s: string, sep: char): (parts: seq<string>)
    ensures |parts| >= 1
    ensures forall k :: 0 <= k < |parts| ==> sep !in parts[k]
    ensures Join(parts, [sep]) == s
    decreases |s|
  {
    var i := IndexOf(s, sep);
    if i == |s| then [s]
    else
      assert s == s[..i] + [sep] + s[i + 1..];
      [s[..i]] + Split(s[i + 1..], sep)
  }

  /** Joining separator-free fields and splitting again gives the fields back. */
  lemma {:induction false} SplitJoin(parts: seq<string>, sep: char)
    requires |parts| >= 1
    requires forall k :: 0 <= k < |parts| ==> sep !in parts[k]
    ensures Split(Join(parts, [sep]), sep) == parts
  {
    if |parts| > 1 {
      var rest := Join(parts[1..], [sep]);
      var s := parts[0] + [sep] + rest;
      assert IndexOf(s, sep) == |parts[0]| by {
        assert s == parts[0] + ([sep] + rest);
        IndexAfterPrefix(parts[0], [sep] + rest, sep);
      }
      assert s[..|parts[0]|] == parts[0];
      assert s[|parts[0]| + 1..] == rest;
      SplitJoin(parts[1..], sep);
    } else {
      assert IndexOf(parts[0], sep) == |parts[0]| by {
        IndexAfterPrefix(parts[0], [], sep);
      }
    }
  }

  lemma {:induction false} IndexAfterPrefix(p: string, t: string, c: char)
    requires c !in p && (t != [] ==> t[0] == c)
    ensures IndexOf(p + t, c) == |p|
  {
    if p != [] {
      assert (p + t)[1..] == p[1..] + t;
      IndexAfterPrefix(p[1..], t, c);
    }
  }

  /** Index of the first whitespace character of `s`, or `|s|`. */
  function FirstSpace(s: string): (i: nat)
    ensures i <= |s| && (forall k :: 0 <= k < i ==> !IsSpace(s[k])) && (i < |s| ==> IsSpace(s[i]))
  {
    if s == [] || IsSpace(s[0]) then 0 else 1 + FirstSpace(s[1..])
  }

  /** A word of `str.split()`: non-empty and free of whitespace. */
  predicate IsWord(w: string)
  {
    w != [] && forall k :: 0 <= k < |w| ==> !IsSpace(w[k])
  }

  /** `s.split()`: the maximal runs of non-whitespace characters, in order. */
  function Words(s: string): (ws: seq<string>)
    ensures forall k :: 0 <= k < |ws| ==> IsWord(ws[k])
    decreases |s|
  {
    var t := TrimLeft(s);
    if t == [] then []
    else
      var i := FirstSpace(t);
      LeadingWord(t);
      var rest := Words(t[i..]);
      assert forall k :: 0 < k < |rest| + 1 ==> ([t[..i]] + rest)[k] == rest[k - 1];
      [t[..i]] + rest
  }

  lemma LeadingWord(t: string)
    requires t != [] && !IsSpace(t[0])
    ensures FirstSpace(t) > 0 && IsWord(t[..FirstSpace(t)])
  {
    var w := t[..FirstSpace(t)];
    forall k | 0 <= k < |w| ensures !IsSpace(w[k]) { assert w[k] == t[k]; }
  }

  /** A word followed by whitespace (or nothing) is the first word. */
  lemma WordsCons(w: string, tail: string)
    requires IsWord(w)
    requires tail != [] ==> IsSpace(tail[0])
    ensures Words(w + tail) == [w] + Words(tail)
  {
    var s := w + tail;
    assert TrimLeft(s) == s;
    NoSpaceFirstSpace(w, tail);
    assert s[..|w|] == w;
    assert s[|w|..] == tail;
  }

  lemma WordsAfterSpace(rest: string)
    ensures Words(" " + rest) == Words(rest)
  {
    assert TrimLeft(" " + rest) == TrimLeft(rest) by {
      assert (" " + rest)[1..] == rest;
    }
  }

  lemma {:induction false} NoSpaceFirstSpace(w: string, t: string)
    requires forall k :: 0 <= k < |w| ==> !IsSpace(w[k])
    requires t != [] ==> IsSpace(t[0])
    ensures FirstSpace(w + t) == |w|
  {
    if w != [] {
      assert (w + t)[1..] == w[1..] + t;
      NoSpaceFirstSpace(w[1..], t);
    }
  }

  predicate IsDigit(c: char) { '0' <= c <= '9' }

  function DigitValue(c: char): (d: nat)
    requires IsDigit(c)
    ensures d < 10
  {
    (c as int - '0' as int) as nat
  }

  function DigitChar(d: nat): (c: char)
    requires d < 10
    ensures IsDigit(c) && DigitValue(c) == d
  {
    ('0' as int + d) as char
  }

  predicate AllDigits(s: string) { forall k :: 0 <= k < |s| ==> IsDigit(s[k]) }

  /** The number a string of decimal digits denotes (leading zeros allowed). */
  function DigitsValue(s: string): (n: nat)
    requires AllDigits(s)
  {
    if s == [] then 0 else DigitsValue(s[..|s| - 1]) * 10 + DigitValue(s[|s| - 1])
  }

  /** Decimal rendering of a natural number, without leading zeros. */
  function NatToString(n: nat): (s: string)
    ensures s != [] && AllDigits(s)
    ensures DigitsValue(s) == n
    ensures |s| > 1 ==> s[0] != '0'
  {
    if n < 10 then [DigitChar(n)]
    else
      var s := NatToString(n / 10) + [DigitChar(n % 10)];
      assert s[..|s| - 1] == NatToString(n / 10);
      s
  }

  /** `str(n)` for a Python int. */
  function IntToString(n: int): string
  {
    if n < 0 then "-" + NatToString(-n) else NatToString(n)
  }

  /** `f"{n:02d}"`: at least two characters, zero-padded when non-negative. */
  function Pad2(n: int): (s: string)
    ensures |s| >= 2
    ensures 0 <= n < 100 ==> |s| == 2 && AllDigits(s) && DigitsValue(s) == n
  {
    if 0 <= n < 10 then "0" + NatToString(n)
    else
      assert n >= 10 ==> |NatToString(n)| >= 2 by {
        if n >= 10 { assert NatToString(n) == NatToString(n / 10) + [DigitChar(n % 10)]; }
      }
      assert 10 <= n < 100 ==> |NatToString(n)| == 2 by {
        if 10 <= n < 100 { assert NatToString(n / 10) == [DigitChar(n / 10)]; }
      }
      IntToString(n)
  }

  /**
   * `int(s)` on the accepted forms: surrounding whitespace, an optional
   * sign, then one or more ASCII digits.
   */
  function ParseInt(s: string): (r: Option<int>)
    ensures r.Some? ==> Strip(s) != []
  {
    var t := Strip(s);
    if t == [] then None
    else if t[0] == '-' || t[0] == '+' then
      var ds := t[1..];
      if ds != [] && AllDigits(ds) then
        var v: int := DigitsValue(ds);
        Some(if t[0] == '-' then -v else v)
      else None
    else if AllDigits(t) then Some(DigitsValue(t))
    else None
  }

  lemma NoSpaceStrip(s: string)
    requires s != [] && !IsSpace(s[0]) && !IsSpace(s[|s| - 1])
    ensures Strip(s) == s
  {
  }

  /** `int(str(n)) == n`. */
  lemma IntToStringRoundTrip(n: int)
    ensures ParseInt(IntToString(n)) == Some(n)
  {
    var s := IntToString(n);
    if n < 0 {
      var d := NatToString(-n);
      assert s == "-" + d && s[1..] == d;
      NoSpaceStrip(s);
    } else {
      NoSpaceStrip(s);
    }
  }

  /** `int(f"{n:02d}") == n` for the values a clock field takes. */
  lemma Pad2RoundTrip(n: int)
    requires 0 <= n < 100
    ensures ParseInt(Pad2(n)) == Some(n)
  {
    NoSpaceStrip(Pad2(n));
  }
}
