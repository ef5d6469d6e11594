/** The pieces of Python's text handling the sale handler relies on:
    `int(s)` on a string, `str(n)` on an integer and `s.split(sep)` on a
    one-character separator. */
module PyText {
  import opened Results

  predicate IsDigit(c: char) { '0' <= c <= '9' }

  /** The ASCII whitespace `int()` ignores around its argument. */
  predicate IsSpace(c: char) {
    c == ' ' || c == '\t' || c == '\n' || c == '\r' || c as int == 11 || c as int == 12
  }

  function DigitValue(c: char): nat
    requires IsDigit(c)
  {
    c as int - '0' as int
  }

  function DigitChar(d: nat): (c: char)
    requires d < 10
    ensures IsDigit(c) && DigitValue(c) == d
  {
    ('0' as int + d) as char
  }

  /* ---------------- int(s) ---------------- */

  /** `s` without its leading whitespace. */
  function TrimStart(s: string): (r: string)
    ensures |r| <= |s| && r == s[|s| - |r|..]
    ensures r == [] || !IsSpace(r[0])
  {
    if |s| > 0 && IsSpace(s[0]) then TrimStart(s[1..]) else s
  }

  /** `s` without its trailing whitespace. */
  function TrimEnd(s: string): (r: string)
    ensures |r| <= |s| && r == s[..|r|]
    ensures r == [] || !IsSpace(r[|r| - 1])
  {
    if |s| > 0 && IsSpace(s[|s| - 1]) then TrimEnd(s[..|s| - 1]) else s
  }

  function Strip(s: string): string {
    TrimEnd(TrimStart(s))
  }

  /** Decimal digits with single underscores between them (PEP 515), the
      only digit strings `int()` accepts after the sign: a digit, or a
      shorter such string followed by a digit, or by `_` and a digit. */
  predicate IsDigitString(d: string)
    decreases |d|
  {
    && |d| > 0 && IsDigit(d[|d| - 1])
    && (|d| == 1 || if d[|d| - 2] == '_' then IsDigitString(d[..|d| - 2]) else IsDigitString(d[..|d| - 1]))
  }

  /** The number a digit string denotes; underscores carry no value. */
  function DigitsValue(d: string): nat
    requires IsDigitString(d)
    decreases |d|
  {
    if |d| == 1 then DigitValue(d[0])
    else if d[|d| - 2] == '_' then 10 * DigitsValue(d[..|d| - 2]) + DigitValue(d[|d| - 1])
    else 10 * DigitsValue(d[..|d| - 1]) + DigitValue(d[|d| - 1])
  }

  /** `int(s)`: `None` where Python raises `ValueError`. */
  function ParseInt(s: string): Option<int> {
    var t := Strip(s);
    if |t| > 0 && (t[0] == '+' || t[0] == '-') then
      if IsDigitString(t[1..]) then
        var v: int := DigitsValue(t[1..]);
        Some(if t[0] == '-' then -v else v)
      else None
    else if IsDigitString(t) then Some(DigitsValue(t))
    else None
  }

  /* ---------------- str(n) ---------------- */

  function NatToString(n: nat): string {
    if n < 10 then [DigitChar(n)] else NatToString(n / 10) + [DigitChar(n % 10)]
  }

  /** `str(n)` for an integer: an optional minus sign and decimal digits. */
  function IntToString(n: int): string {
    if n < 0 then "-" + NatToString(-n) else NatToString(n)
  }

  lemma {:induction false} NatToStringDigits(n: nat)
    ensures |NatToString(n)| > 0
    ensures forall i :: 0 <= i < |NatToString(n)| ==> IsDigit(NatToString(n)[i])
    ensures IsDigitString(NatToString(n)) && DigitsValue(NatToString(n)) == n
  {
    if n >= 10 {
      NatToStringDigits(n / 10);
      var s := NatToString(n);
      assert s[..|s| - 1] == NatToString(n / 10);
    }
  }

  /** `str(n)` is one token made of a sign and digits: no separator, no
      whitespace and never the placeholder "?". */
  lemma IntToStringShape(n: int)
    ensures |IntToString(n)| > 0
    ensures IntToString(n)[0] == '-' || IsDigit(IntToString(n)[0])
    ensures forall i :: 0 < i < |IntToString(n)| ==> IsDigit(IntToString(n)[i])
  {
    if n < 0 { NatToStringDigits(-n); } else { NatToStringDigits(n); }
  }

  /** A string that starts and ends with a non-blank character is its own strip. */
  lemma StripUnchanged(s: string)
    requires |s| > 0 && !IsSpace(s[0]) && !IsSpace(s[|s| - 1])
    ensures Strip(s) == s
  {
    assert TrimStart(s) == s;
  }

  /** A digit string also starts with a digit. */
  lemma {:induction false} DigitStringStart(d: string)
    requires IsDigitString(d)
    ensures IsDigit(d[0])
    decreases |d|
  {
    if |d| > 1 {
      var k := if d[|d| - 2] == '_' then |d| - 2 else |d| - 1;
      DigitStringStart(d[..k]);
      assert d[..k][0] == d[0];
    }
  }

  /** `int()` of a bare digit string is its value. */
  lemma ParseUnsigned(s: string)
    requires IsDigitString(s)
    ensures ParseInt(s) == Some(DigitsValue(s))
  {
    DigitStringStart(s);
    StripUnchanged(s);
  }

  /** `int()` of a minus sign followed by a digit string is the negated value. */
  lemma ParseSigned(s: string)
    requires |s| > 1 && s[0] == '-' && IsDigitString(s[1..])
    ensures ParseInt(s) == Some(0 - DigitsValue(s[1..]) as int)
  {
    assert s[1..][|s| - 2] == s[|s| - 1];
    StripUnchanged(s);
  }

  lemma ParseNegative(n: int)
    requires n < 0
    ensures ParseInt(IntToString(n)) == Some(n)
  {
    var m: nat := -n;
    var s := IntToString(n);
    assert s[1..] == NatToString(m);
    NatToStringDigits(m);
    ParseSigned(s);
  }

  lemma ParseNonNegative(n: int)
    requires n >= 0
    ensures ParseInt(IntToString(n)) == Some(n)
  {
    NatToStringDigits(n);
    ParseUnsigned(IntToString(n));
  }

  /** `int(str(n)) == n` for every integer. */
  lemma ParseIntRoundTrip(n: int)
    ensures ParseInt(IntToString(n)) == Some(n)
  {
    if n < 0 { ParseNegative(n); } else { ParseNonNegative(n); }
  }

  /* ---------------- s.split(sep) ---------------- */

  /** `s.split(sep)`: the pieces between occurrences of `sep`, in order;
      a string without `sep` is one piece. */
  function Split(s: string, sep: char): (parts: seq<string>)
    ensures |parts| > 0
  {
    if s == [] then [""]
    else
      var init := Split(s[..|s| - 1], sep);
      var c := s[|s| - 1];
      if c == sep then init + [""]
      else init[..|init| - 1] + [init[|init| - 1] + [c]]
  }

  /** `sep.join(parts)`. */
  function Join(parts: seq<string>, sep: char): string
    requires |parts| > 0
  {
    if |parts| == 1 then parts[0]
    else Join(parts[..|parts| - 1], sep) + [sep] + parts[|parts| - 1]
  }

  /** Splitting loses nothing: joining the pieces back gives the string. */
  lemma {:induction false} JoinSplit(s: string, sep: char)
    ensures Join(Split(s, sep), sep) == s
  {
    if s != [] {
      var s' := s[..|s| - 1];
      var c := s[|s| - 1];
      var init := Split(s', sep);
      JoinSplit(s', sep);
      if c != sep {
        var parts := Split(s, sep);
        assert parts == init[..|init| - 1] + [init[|init| - 1] + [c]];
        if |init| > 1 {
          assert parts[..|parts| - 1] == init[..|init| - 1];
          assert Join(init, sep) == Join(init[..|init| - 1], sep) + [sep] + init[|init| - 1];
        }
      } else {
        var parts := Split(s, sep);
        assert parts[..|parts| - 1] == init;
      }
      assert s == s' + [c];
    }
  }

  /** No piece of a split holds the separator. */
  lemma {:induction false} SplitPieces(s: string, sep: char)
    ensures forall k :: 0 <= k < |Split(s, sep)| ==> sep !in Split(s, sep)[k]
  {
    if s != [] {
      var s' := s[..|s| - 1];
      var c := s[|s| - 1];
      SplitPieces(s', sep);
      var init := Split(s', sep);
      var parts := Split(s, sep);
      if c != sep {
        assert parts == init[..|init| - 1] + [init[|init| - 1] + [c]];
        forall k | 0 <= k < |parts|
          ensures sep !in parts[k]
        {
          if k < |parts| - 1 {
            assert parts[k] == init[k];
          }
        }
      } else {
        assert parts == init + [""];
        forall k | 0 <= k < |parts|
          ensures sep !in parts[k]
        {
          if k < |parts| - 1 {
            assert parts[k] == init[k];
          }
        }
      }
    }
  }

  lemma {:induction false} SplitNoSeparator(s: string, sep: char)
    requires sep !in s
    ensures Split(s, sep) == [s]
  {
    if s != [] {
      SplitNoSeparator(s[..|s| - 1], sep);
      assert s == s[..|s| - 1] + [s[|s| - 1]];
    }
  }

  lemma {:induction false} SplitAfterSeparator(a: string, sep: char, b: string)
    requires sep !in b
    ensures Split(a + [sep] + b, sep) == Split(a, sep) + [b]
  {
    var s := a + [sep] + b;
    if b == [] {
      assert s[..|s| - 1] == a;
    } else {
      var b' := b[..|b| - 1];
      SplitAfterSeparator(a, sep, b');
      assert s[..|s| - 1] == a + [sep] + b';
      assert b == b' + [b[|b| - 1]];
    }
  }

  /** Joining pieces that do not contain the separator and splitting again
      gives the pieces back. */
  lemma {:induction false} SplitJoin(parts: seq<string>, sep: char)
    requires |parts| > 0
    requires forall k :: 0 <= k < |parts| ==> sep !in parts[k]
    ensures Split(Join(parts, sep), sep) == parts
  {
    if |parts| == 1 {
      SplitNoSeparator(parts[0], sep);
    } else {
      var init := parts[..|parts| - 1];
      SplitJoin(init, sep);
      SplitAfterSeparator(Join(init, sep), sep, parts[|parts| - 1]);
      assert parts == init + [parts[|parts| - 1]];
    }
  }
}
