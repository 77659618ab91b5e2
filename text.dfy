/** Small string helpers shared by the scripts: Python's str.upper, startswith,
    endswith, `in` and strip, restricted to ASCII (the only characters that
    occur in the names these scripts handle). */
module Text {

  datatype Option<+T> = None | Some(value: T)

  /** A value, or the exception that the source raises instead of returning one. */
  datatype Result<+T, +E> = Ok(value: T) | Err(error: E)

  /** Python's str.upper on one character, for the ASCII letters. */
  function UpperChar(c: char): (u: char)
    ensures 'a' <= c <= 'z' ==> u as int == c as int - 32
    ensures !('a' <= c <= 'z') ==> u == c
    ensures !('a' <= u <= 'z')
  {
    if 'a' <= c <= 'z' then (c as int - 32) as char else c
  }

  function Upper(s: string): (u: string)
    ensures |u| == |s|
    ensures forall i :: 0 <= i < |s| ==> u[i] == UpperChar(s[i])
  {
    if s == [] then [] else [UpperChar(s[0])] + Upper(s[1..])
  }

  lemma {:induction false} UpperAppend(a: string, b: string)
    ensures Upper(a + b) == Upper(a) + Upper(b)
  {
    var l, r := Upper(a + b), Upper(a) + Upper(b);
    assert |l| == |r|;
    forall i | 0 <= i < |l| ensures l[i] == r[i] {
      if i < |a| { assert (a + b)[i] == a[i]; } else { assert (a + b)[i] == b[i - |a|]; }
    }
  }

  /** Upper-casing twice changes nothing more than upper-casing once. */
  lemma UpperIdempotent(s: string)
    ensures Upper(Upper(s)) == Upper(s)
  {
    var u := Upper(s);
    assert forall i :: 0 <= i < |u| ==> Upper(u)[i] == u[i];
  }

  predicate StartsWith(s: string, p: string) {
    |p| <= |s| && s[..|p|] == p
  }

  predicate EndsWith(s: string, p: string) {
    |p| <= |s| && s[|s| - |p|..] == p
  }

  /** Python's `p in s`. */
  predicate Contains(s: string, p: string)
    decreases |s|
  {
    StartsWith(s, p) || (s != [] && Contains(s[1..], p))
  }

  /** The case-insensitive prefix test `s.upper().startswith(p.upper())`. */
  predicate StartsWithIgnoringCase(s: string, p: string) {
    StartsWith(Upper(s), Upper(p))
  }

  predicate IsDigit(c: char) {
    '0' <= c <= '9'
  }

  predicate AllDigits(s: string) {
    forall i :: 0 <= i < |s| ==> IsDigit(s[i])
  }

  /** The value of a string of decimal digits (Python's int() on such a string). */
  function DigitsValue(s: string): (v: nat)
    requires AllDigits(s)
    ensures |s| > 0 ==> v < Pow10(|s|)
  {
    if s == [] then 0
    else DigitsValue(s[..|s| - 1]) * 10 + (s[|s| - 1] as int - '0' as int)
  }

  function Pow10(n: nat): (p: nat)
    ensures p >= 1
  {
    if n == 0 then 1 else 10 * Pow10(n - 1)
  }

  function DigitChar(d: nat): (c: char)
    requires d < 10
    ensures IsDigit(c) && c as int - '0' as int == d
  {
    ('0' as int + d) as char
  }

  /** strftime's zero-padded two-digit field (`%d`, `%m`, `%y`, `%H`, `%M`). */
  function TwoDigits(n: nat): (s: string)
    requires n < 100
    ensures |s| == 2 && AllDigits(s) && DigitsValue(s) == n
  {
    var s := [DigitChar(n / 10), DigitChar(n % 10)];
    assert s[..1] == [DigitChar(n / 10)];
    s
  }

  /** strftime's `%Y` for the years 1..9999. */
  function FourDigits(n: nat): (s: string)
    requires n < 10000
    ensures |s| == 4 && AllDigits(s)
    ensures DigitsValue(s[..2]) == n / 100 && DigitsValue(s[2..]) == n % 100
  {
    var hi, lo := TwoDigits(n / 100), TwoDigits(n % 100);
    assert (hi + lo)[..2] == hi && (hi + lo)[2..] == lo;
    hi + lo
  }

  /** Python's `s.split(c)` for a one-character separator: the pieces between the
      separators, always at least one. */
  function SplitOn(s: string, c: char): (parts: seq<string>)
    ensures |parts| >= 1
  {
    if s == [] then [[]]
    else
      var rest := SplitOn(s[1..], c);
      if s[0] == c then [[]] + rest else [[s[0]] + rest[0]] + rest[1..]
  }

  /** Without a separator the whole string is the only piece. */
  lemma {:induction false} SplitOnNone(s: string, c: char)
    requires c !in s
    ensures SplitOn(s, c) == [s]
  {
    if s != [] {
      assert s[0] in s;
      assert forall x :: x in s[1..] ==> x in s;
      SplitOnNone(s[1..], c);
      assert [s[0]] + s[1..] == s;
    }
  }

  /** A first piece `h` followed by the separator: the rest splits on its own. */
  lemma {:induction false} SplitOnAt(h: string, r: string, c: char)
    requires c !in h
    ensures SplitOn(h + [c] + r, c) == [h] + SplitOn(r, c)
  {
    var s := h + [c] + r;
    if h == [] {
      assert s == [c] + r && s[1..] == r;
    } else {
      assert h[0] in h;
      assert forall x :: x in h[1..] ==> x in h;
      SplitOnAt(h[1..], r, c);
      assert s[0] == h[0] && s[1..] == h[1..] + [c] + r;
      assert [h[0]] + h[1..] == h;
    }
  }

  /** The first piece is the text before the first separator, or all of it. */
  lemma {:induction false} SplitOnFirst(s: string, c: char)
    ensures var h := SplitOn(s, c)[0];
            && |h| <= |s| && s[..|h|] == h && c !in h
            && (|h| == |s| || s[|h|] == c)
  {
    if s != [] {
      SplitOnFirst(s[1..], c);
      if s[0] != c {
        var t := SplitOn(s[1..], c)[0];
        assert SplitOn(s, c)[0] == [s[0]] + t;
        assert s[..|t| + 1] == [s[0]] + s[1..][..|t|];
      }
    }
  }

  /** The last piece is the text after the last separator, or all of it. */
  lemma {:induction false} SplitOnLast(s: string, c: char)
    ensures var parts := SplitOn(s, c);
            var l := parts[|parts| - 1];
            && |l| <= |s| && s[|s| - |l|..] == l && c !in l
            && (|parts| == 1 ==> l == s)
            && (|parts| > 1 ==> |l| < |s| && s[|s| - |l| - 1] == c)
  {
    if s != [] {
      var t := s[1..];
      SplitOnLast(t, c);
      var rest := SplitOn(t, c);
      var l := rest[|rest| - 1];
      if s[0] == c || |rest| > 1 {
        LastPieceKept(s, c);
        TailSuffix(s, |l|);
      } else {
        assert SplitOn(s, c) == [[s[0]] + l];
        assert [s[0]] + t == s;
      }
    }
  }

  /** When the first character is a separator or the rest has several pieces,
      the last piece is the rest's last piece and there is more than one. */
  lemma LastPieceKept(s: string, c: char)
    requires s != [] && (s[0] == c || |SplitOn(s[1..], c)| > 1)
    ensures var parts, rest := SplitOn(s, c), SplitOn(s[1..], c);
            |parts| > 1 && parts[|parts| - 1] == rest[|rest| - 1]
  {
    var rest := SplitOn(s[1..], c);
    if s[0] == c {
      assert SplitOn(s, c) == [[]] + rest;
    } else {
      assert SplitOn(s, c) == [[s[0]] + rest[0]] + rest[1..];
    }
  }

  lemma TailSuffix(s: string, n: nat)
    requires n < |s|
    ensures s[|s| - n..] == s[1..][|s| - 1 - n..]
    ensures n < |s| - 1 ==> s[|s| - n - 1] == s[1..][|s| - 1 - n - 1]
    ensures n == |s| - 1 ==> s[|s| - n - 1] == s[0]
  {
  }

  /** Python's str.isspace for ASCII: the characters str.split() and str.strip()
      drop (tab to carriage return, the four separators 0x1c..0x1f, and space). */
  predicate IsSpace(c: char) {
    c == ' ' || c == '\t' || c == '\n' || c == '\r' || c == '\U{0b}' || c == '\U{0c}'
    || c == '\U{1c}' || c == '\U{1d}' || c == '\U{1e}' || c == '\U{1f}'
  }

  /** str.strip() with no argument. */
  function Strip(s: string): (r: string)
    ensures r == [] || (!IsSpace(r[0]) && !IsSpace(r[|r| - 1]))
    ensures |r| <= |s|
    decreases |s|
  {
    if s == [] then []
    else if IsSpace(s[0]) then Strip(s[1..])
    else if IsSpace(s[|s| - 1]) then Strip(s[..|s| - 1])
    else s
  }
}
