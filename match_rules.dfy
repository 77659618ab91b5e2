/** The per-file tests of the Santander return-file monitor (Processo_3.py):
    the modification-time window, the DDMMYY token of the expected day, the
    case-insensitive "EX" + token name test, and the host part of the UNC path
    that is pinged before the folder is read. */
module MatchRules {
  import opened Text
  import opened Calendar

  /** `within_time_window`: the modification moment lies in the closed window
      of `windowSeconds` seconds centred on the expected moment. The source
      halves the window as a float, so an odd window has half-second edges. */
  predicate WithinTimeWindow(mtime: nat, expected: nat, windowSeconds: nat) {
    var half := windowSeconds as real / 2.0;
    expected as real - half <= mtime as real <= expected as real + half
  }

  /** The window test in whole numbers: twice the distance to the expected
      moment is at most the window. */
  lemma WindowInWholeSeconds(mtime: nat, expected: nat, windowSeconds: nat)
    ensures WithinTimeWindow(mtime, expected, windowSeconds)
            <==> 2 * expected - windowSeconds <= 2 * mtime <= 2 * expected + windowSeconds
  {
    var half := windowSeconds as real / 2.0;
    assert 2.0 * half == windowSeconds as real;
    assert (2 * expected - windowSeconds) as real == 2.0 * (expected as real - half);
    assert (2 * expected + windowSeconds) as real == 2.0 * (expected as real + half);
    assert (2 * mtime) as real == 2.0 * mtime as real;
  }

  /** With the configured 600 seconds the window reaches exactly five minutes
      to either side: both edges are inside, one second further is not. */
  lemma ConfiguredWindowEdges(expected: nat)
    requires expected >= 301
    ensures WithinTimeWindow(expected - 300, expected, 600) && WithinTimeWindow(expected + 300, expected, 600)
    ensures !WithinTimeWindow(expected - 301, expected, 600) && !WithinTimeWindow(expected + 301, expected, 600)
  {
    WindowInWholeSeconds(expected - 300, expected, 600);
    WindowInWholeSeconds(expected + 300, expected, 600);
    WindowInWholeSeconds(expected - 301, expected, 600);
    WindowInWholeSeconds(expected + 301, expected, 600);
  }

  /** `today_token_for`: `strftime("%d%m%y")` of the expected moment's date. */
  function TodayToken(expected: nat): (token: string)
    ensures |token| == 6 && AllDigits(token)
  {
    var d := DateOf(expected);
    TwoDigits(d.day) + TwoDigits(d.month) + TwoDigits(d.year % 100)
  }

  /** The token reads back as the day, the month and the year within its century. */
  lemma TokenDecodes(expected: nat)
    ensures var token, d := TodayToken(expected), DateOf(expected);
            && DigitsValue(token[..2]) == d.day
            && DigitsValue(token[2..4]) == d.month
            && DigitsValue(token[4..]) == d.year % 100
  {
    var d := DateOf(expected);
    var dd, mm, yy := TwoDigits(d.day), TwoDigits(d.month), TwoDigits(d.year % 100);
    var token := dd + mm + yy;
    assert token[..2] == dd && token[2..4] == mm && token[4..] == yy;
  }

  /** Two moments share a token exactly when their dates agree on the day, the
      month and the last two digits of the year. */
  lemma TokenIdentifiesDay(t1: nat, t2: nat)
    ensures TodayToken(t1) == TodayToken(t2)
            <==> (var d1, d2 := DateOf(t1), DateOf(t2);
                  d1.day == d2.day && d1.month == d2.month && d1.year % 100 == d2.year % 100)
  {
    TokenDecodes(t1);
    TokenDecodes(t2);
  }

  /** `name_is_today_EX`: the name, upper-cased, starts with the upper-cased
      prefix followed by the token of the expected day. */
  predicate NameIsTodayEx(prefix: string, filename: string, expected: nat) {
    StartsWithIgnoringCase(filename, prefix + TodayToken(expected))
  }

  lemma UpperOfDigits(s: string)
    requires AllDigits(s)
    ensures Upper(s) == s
  {
  }

  /** An upper-cased character is a digit only if the original was that digit. */
  lemma UpperIsDigitsOnlyFromDigits(s: string, t: string)
    requires AllDigits(t) && Upper(s) == t
    ensures s == t
  {
    assert |s| == |t|;
    forall i | 0 <= i < |s| ensures s[i] == t[i] {
      assert UpperChar(s[i]) == t[i];
    }
  }

  /** A name passes exactly when it starts with the prefix, ignoring case, and
      the six characters after the prefix are the token itself (digits have no
      case). */
  lemma NameTestMeaning(prefix: string, filename: string, expected: nat)
    ensures NameIsTodayEx(prefix, filename, expected)
            <==> && StartsWithIgnoringCase(filename, prefix)
                 && |prefix| + 6 <= |filename|
                 && filename[|prefix|..|prefix| + 6] == TodayToken(expected)
  {
    var token := TodayToken(expected);
    var n := |prefix|;
    UpperAppend(prefix, token);
    UpperOfDigits(token);
    var u := Upper(filename);
    if |prefix| + 6 <= |filename| {
      var mid := filename[n..n + 6];
      assert Upper(mid) == u[n..n + 6];
      if Upper(mid) == token {
        UpperIsDigitsOnlyFromDigits(mid, token);
      }
      assert u[..n + 6] == u[..n] + u[n..n + 6];
    }
  }

  /** The token of any 6 November in a year ending in 25. */
  lemma ExampleToken(expected: nat)
    requires var d := DateOf(expected); d.day == 6 && d.month == 11 && d.year % 100 == 25
    ensures TodayToken(expected) == "061125"
  {
    var d := DateOf(expected);
    assert TwoDigits(d.day) == "06" by { assert DigitChar(0) == '0' && DigitChar(6) == '6'; }
    assert TwoDigits(d.month) == "11" by { assert DigitChar(1) == '1'; }
    assert TwoDigits(d.year % 100) == "25" by { assert DigitChar(2) == '2' && DigitChar(5) == '5'; }
    assert "06" + "11" + "25" == "061125";
  }

  /** The documented example: on 6 November 2025 a lower-case "ex061125.csv"
      passes... */
  lemma NameExampleMatches(expected: nat, name: string)
    requires var d := DateOf(expected); d.day == 6 && d.month == 11 && d.year % 100 == 25
    requires name == "ex061125.csv"
    ensures NameIsTodayEx("EX", name, expected)
  {
    ExampleToken(expected);
    NameTestMeaning("EX", name, expected);
    assert name[..2] == "ex" && name[2..8] == "061125";
    assert Upper(name)[..2] == Upper(name[..2]);
    assert Upper("ex") == "EX" && Upper("EX") == "EX";
  }

  /** ... and a file of another day, "EX070125.csv", does not. */
  lemma NameExampleRejects(expected: nat, name: string)
    requires var d := DateOf(expected); d.day == 6 && d.month == 11 && d.year % 100 == 25
    requires name == "EX070125.csv"
    ensures !NameIsTodayEx("EX", name, expected)
  {
    ExampleToken(expected);
    NameTestMeaning("EX", name, expected);
    assert name[2..8] == "070125";
  }

  /** `str.replace` of one character by another. */
  function ReplaceChar(s: string, from: char, to: char): (r: string)
    ensures |r| == |s|
    ensures forall i :: 0 <= i < |s| ==> r[i] == if s[i] == from then to else s[i]
  {
    if s == [] then [] else [if s[0] == from then to else s[0]] + ReplaceChar(s[1..], from, to)
  }

  /** `extract_host_from_unc`: None for an empty path; otherwise, with forward
      slashes turned into backslashes, the text between a leading `\\` and the
      next backslash (possibly empty), or None when there is no leading `\\`. */
  function ExtractHostFromUnc(unc: string): (host: Option<string>)
    ensures host.Some? ==> '\\' !in host.value && '/' !in host.value
  {
    if unc == [] then None
    else
      var p := ReplaceChar(unc, '/', '\\');
      if StartsWith(p, "\\\\") then
        assert forall i :: 0 <= i < |p| ==> p[i] != '/';
        var parts := SplitOn(p[2..], '\\');
        SplitOnFirst(p[2..], '\\');
        assert forall c :: c in parts[0] ==> c in p[2..];
        Some(parts[0])
      else None
  }

  predicate IsSeparator(c: char) {
    c == '\\' || c == '/'
  }

  /** The first piece of a split is everything before the first separator. */
  lemma SplitHead(h: string, rest: string, c: char)
    requires c !in h && (rest == [] || rest[0] == c)
    ensures SplitOn(h + rest, c)[0] == h
  {
    if rest == [] {
      assert h + rest == h;
      SplitOnNone(h, c);
    } else {
      assert h + rest == h + [c] + rest[1..];
      SplitOnAt(h, rest[1..], c);
    }
  }

  /** Only a path that starts with two separators (either slash) has a host. */
  lemma HostNeedsTwoSeparators(unc: string)
    ensures ExtractHostFromUnc(unc).Some? <==> |unc| >= 2 && IsSeparator(unc[0]) && IsSeparator(unc[1])
  {
    if |unc| >= 2 {
      var p := ReplaceChar(unc, '/', '\\');
      assert p[..2] == [p[0], p[1]];
    }
  }

  /** The host is the text after the leading two separators up to the next
      separator or the end, with forward slashes read as backslashes. */
  lemma HostIsFirstComponent(unc: string)
    requires ExtractHostFromUnc(unc).Some?
    ensures var h, p := ExtractHostFromUnc(unc).value, ReplaceChar(unc, '/', '\\');
            && |unc| >= 2 + |h|
            && p[2..2 + |h|] == h
            && (|unc| == 2 + |h| || IsSeparator(unc[2 + |h|]))
  {
    var p := ReplaceChar(unc, '/', '\\');
    var tail := p[2..];
    SplitOnFirst(tail, '\\');
    var h := ExtractHostFromUnc(unc).value;
    assert h == SplitOn(tail, '\\')[0];
    if |h| < |tail| {
      assert p[2 + |h|] == tail[|h|];
    }
  }

  /** A host followed by a separator or nothing is what the path yields. */
  lemma HostOf(h: string, rest: string)
    requires forall i :: 0 <= i < |h| ==> !IsSeparator(h[i])
    requires rest == [] || rest[0] == '\\'
    ensures ExtractHostFromUnc(@"\\" + h + rest) == Some(h)
  {
    var unc := @"\\" + h + rest;
    var p, q := ReplaceChar(unc, '/', '\\'), ReplaceChar(rest, '/', '\\');
    ReplaceAppend(@"\\" + h, rest, '/', '\\');
    ReplaceAppend(@"\\", h, '/', '\\');
    ReplaceAbsent(@"\\", '/', '\\');
    ReplaceAbsent(h, '/', '\\');
    assert '\\' !in h by {
      forall i | 0 <= i < |h| ensures h[i] != '\\' { assert !IsSeparator(h[i]); }
    }
    HostAfterReplace(unc, h, q);
  }

  /** The host of a path whose normalised form is `\\` + `h` + `q`. */
  lemma HostAfterReplace(unc: string, h: string, q: string)
    requires ReplaceChar(unc, '/', '\\') == @"\\" + h + q
    requires '\\' !in h && (q == [] || q[0] == '\\')
    ensures ExtractHostFromUnc(unc) == Some(h)
  {
    var p := ReplaceChar(unc, '/', '\\');
    assert p[..2] == @"\\" && p[2..] == h + q;
    SplitHead(h, q, '\\');
  }

  lemma ReplaceAppend(a: string, b: string, from: char, to: char)
    ensures ReplaceChar(a + b, from, to) == ReplaceChar(a, from, to) + ReplaceChar(b, from, to)
  {
    var l, r := ReplaceChar(a + b, from, to), ReplaceChar(a, from, to) + ReplaceChar(b, from, to);
    forall i | 0 <= i < |l| ensures l[i] == r[i] {
      if i < |a| { assert (a + b)[i] == a[i]; } else { assert (a + b)[i] == b[i - |a|]; }
    }
  }

  lemma ReplaceAbsent(a: string, from: char, to: char)
    requires forall i :: 0 <= i < |a| ==> a[i] != from
    ensures ReplaceChar(a, from, to) == a
  {
  }

  /** The monitored share `\\172.20.1.43\C\SANTANDER\retorno\BKP` is pinged
      at 172.20.1.43. */
  lemma ConfiguredHost(path: string)
    requires path == @"\\" + "172.20.1.43" + @"\C\SANTANDER\retorno\BKP"
    ensures ExtractHostFromUnc(path) == Some("172.20.1.43")
  {
    HostOf("172.20.1.43", @"\C\SANTANDER\retorno\BKP");
  }

  /** A bare `\\` has an empty host, which the source treats as "no host" and
      does not ping; a drive path has none. */
  lemma DegenerateHosts()
    ensures ExtractHostFromUnc(@"\\") == Some("")
    ensures ExtractHostFromUnc(@"C:\SANTANDER") == None
  {
    HostOf("", "");
    assert @"\\" + "" + "" == @"\\";
    HostNeedsTwoSeparators(@"C:\SANTANDER");
  }
}
