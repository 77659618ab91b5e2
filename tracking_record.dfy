/** Processo_1.py: the newest `YYYY-MM-DD_TrackingRecord.xlsx` in an FTP
    `LIST` listing (`buscar_arquivo_mais_recente`), and the `DD/MM/YYYY`
    date the e-mail quotes for it (`extrair_data_arquivo`). The FTP session
    is outside the model: the listing is an input, None when `retrlines`
    raised. */
module TrackingRecord {
  import opened Text
  import opened Calendar

  // ---------------------------------------------------------------------
  // str.split() and ' '.join

  /** The length of the run of non-space characters at the start of `s`. */
  function WordLength(s: string): (k: nat)
    ensures k <= |s|
    ensures forall i :: 0 <= i < k ==> !IsSpace(s[i])
    ensures k < |s| ==> IsSpace(s[k])
  {
    if s == [] || IsSpace(s[0]) then 0 else 1 + WordLength(s[1..])
  }

  predicate IsWord(w: string) {
    w != [] && forall i :: 0 <= i < |w| ==> !IsSpace(w[i])
  }

  /** `line.split()`: the maximal runs of non-space characters. */
  function Words(s: string): (ws: seq<string>)
    ensures forall i :: 0 <= i < |ws| ==> IsWord(ws[i])
    decreases |s|
  {
    if s == [] then []
    else if IsSpace(s[0]) then Words(s[1..])
    else
      var k := WordLength(s);
      [s[..k]] + Words(s[k..])
  }

  /** `' '.join(ws)`. */
  function JoinSpaces(ws: seq<string>): string {
    if ws == [] then ""
    else if |ws| == 1 then ws[0]
    else ws[0] + " " + JoinSpaces(ws[1..])
  }

  lemma WordAlone(w: string)
    requires IsWord(w)
    ensures Words(w) == [w]
  {
    var k := WordLength(w);
    assert k == |w|;
    assert w[..k] == w && w[k..] == [];
  }

  lemma WordThenSpace(w: string, rest: string)
    requires IsWord(w)
    ensures Words(w + " " + rest) == [w] + Words(rest)
  {
    var s := w + " " + rest;
    assert s[|w|] == ' ';
    assert forall i :: 0 <= i < |w| ==> s[i] == w[i];
    assert WordLength(s) == |w|;
    assert s[..|w|] == w;
    assert s[|w|..][1..] == rest;
  }

  /** Splitting joined words gives the words back. */
  lemma {:induction false} SplitJoinRoundTrip(ws: seq<string>)
    requires forall i :: 0 <= i < |ws| ==> IsWord(ws[i])
    ensures Words(JoinSpaces(ws)) == ws
  {
    if |ws| == 1 {
      WordAlone(ws[0]);
    } else if |ws| > 1 {
      SplitJoinRoundTrip(ws[1..]);
      WordThenSpace(ws[0], JoinSpaces(ws[1..]));
    }
  }

  // ---------------------------------------------------------------------
  // One LIST line

  /** The file name of a `LIST` line: the ninth field onwards, joined by single
      spaces; a line with fewer than nine fields has none. */
  function NameOfLine(line: string): (name: Option<string>)
    ensures name.Some? ==> |Words(line)| >= 9
  {
    var fields := Words(line);
    if |fields| < 9 then None else Some(JoinSpaces(fields[8..]))
  }

  /** A line made of eight fields and a name of one or more words yields the
      name, with its words joined by single spaces. */
  lemma NameAfterEightFields(fields: seq<string>, nameWords: seq<string>)
    requires |fields| == 8 && nameWords != []
    requires forall i :: 0 <= i < |fields| ==> IsWord(fields[i])
    requires forall i :: 0 <= i < |nameWords| ==> IsWord(nameWords[i])
    ensures NameOfLine(JoinSpaces(fields + nameWords)) == Some(JoinSpaces(nameWords))
  {
    var ws := fields + nameWords;
    assert forall i :: 0 <= i < |ws| ==> IsWord(ws[i]);
    SplitJoinRoundTrip(ws);
    assert ws[8..] == nameWords;
  }

  /** The suffix that follows the date in the pattern. */
  const Suffix: string := "_TrackingRecord.xlsx"

  /** `re.match(r'(\d{4}-\d{2}-\d{2})_TrackingRecord\.xlsx', name)`: the name
      starts (and may go on after) with four digits, a dash, two digits, a
      dash, two digits and the suffix. */
  predicate MatchesPattern(name: string) {
    && |name| >= 10 + |Suffix|
    && AllDigits(name[..4]) && name[4] == '-'
    && AllDigits(name[5..7]) && name[7] == '-'
    && AllDigits(name[8..10])
    && name[10..10 + |Suffix|] == Suffix
  }

  /** The name test of the listing loop: `padrao in nome`, `.endswith('.xlsx')`
      and the pattern. */
  predicate IsTrackingName(name: string) {
    Contains(name, "TrackingRecord.xlsx") && EndsWith(name, ".xlsx") && MatchesPattern(name)
  }

  lemma {:induction false} ContainsAt(s: string, i: nat, p: string)
    requires i + |p| <= |s| && s[i..i + |p|] == p
    ensures Contains(s, p)
    decreases i
  {
    if i > 0 {
      assert s[1..][i - 1..i - 1 + |p|] == s[i..i + |p|];
      ContainsAt(s[1..], i - 1, p);
    }
  }

  /** The first test is implied by the pattern: a name is kept exactly when it
      matches the pattern and ends with ".xlsx". */
  lemma TrackingNameMeaning(name: string)
    ensures IsTrackingName(name) <==> MatchesPattern(name) && EndsWith(name, ".xlsx")
  {
    if MatchesPattern(name) {
      assert name[11..30] == Suffix[1..];
      ContainsAt(name, 11, "TrackingRecord.xlsx");
    }
  }

  /** The date group of a kept name. */
  function DateText(name: string): (d: string)
    requires MatchesPattern(name)
    ensures |d| == 10
  {
    name[..10]
  }

  // ---------------------------------------------------------------------
  // Python's string and tuple order

  /** `a < b` on Python strings: lexicographic by code point. */
  predicate Less(a: string, b: string) {
    b != [] && (a == [] || a[0] < b[0] || (a[0] == b[0] && Less(a[1..], b[1..])))
  }

  lemma {:induction false} LessIrreflexive(a: string)
    ensures !Less(a, a)
  {
    if a != [] {
      LessIrreflexive(a[1..]);
    }
  }

  lemma {:induction false} LessTransitive(a: string, b: string, c: string)
    requires Less(a, b) && Less(b, c)
    ensures Less(a, c)
  {
    if a != [] && a[0] == b[0] && b[0] == c[0] {
      LessTransitive(a[1..], b[1..], c[1..]);
    }
  }

  lemma {:induction false} LessTotal(a: string, b: string)
    requires a != b
    ensures Less(a, b) || Less(b, a)
  {
    if a != [] && b != [] && a[0] == b[0] {
      assert a == [a[0]] + a[1..] && b == [b[0]] + b[1..];
      LessTotal(a[1..], b[1..]);
    }
  }

  /** Behind a common-length head, the order is decided by the heads first. */
  lemma {:induction false} LessAfterEqualLength(p: string, x: string, q: string, y: string)
    requires |p| == |q|
    ensures Less(p + x, q + y) <==> Less(p, q) || (p == q && Less(x, y))
  {
    if p != [] {
      assert (p + x)[1..] == p[1..] + x && (q + y)[1..] == q[1..] + y;
      LessAfterEqualLength(p[1..], x, q[1..], y);
      if p[0] == q[0] && p[1..] == q[1..] {
        assert p == [p[0]] + p[1..] && q == [q[0]] + q[1..];
      }
    } else {
      assert p + x == x && q + y == y;
    }
  }

  /** `(date, name) < (date', name')` on Python tuples. */
  predicate TupleLess(a: (string, string), b: (string, string)) {
    Less(a.0, b.0) || (a.0 == b.0 && Less(a.1, b.1))
  }

  /** The sort key of the loop, `(date, name)`, orders kept names exactly as
      the names themselves, since every name starts with its date. */
  lemma KeyOrderIsNameOrder(a: string, b: string)
    requires MatchesPattern(a) && MatchesPattern(b)
    ensures TupleLess((DateText(a), a), (DateText(b), b)) <==> Less(a, b)
  {
    assert a == a[..10] + a[10..] && b == b[..10] + b[10..];
    LessAfterEqualLength(a[..10], a[10..], b[..10], b[10..]);
    if a[..10] == b[..10] && Less(a[10..], b[10..]) {
      assert Less(a, b);
    }
    LessIrreflexive(a[..10]);
  }

  // ---------------------------------------------------------------------
  // The listing

  /** The kept names, in listing order (`arquivos_tracking`). */
  function Kept(lines: seq<string>): (names: seq<string>)
    ensures forall i :: 0 <= i < |names| ==> IsTrackingName(names[i])
  {
    if lines == [] then []
    else
      var name := NameOfLine(lines[|lines| - 1]);
      Kept(lines[..|lines| - 1]) + (if name.Some? && IsTrackingName(name.value) then [name.value] else [])
  }

  /** A name is kept exactly when some line yields it and it passes the test. */
  lemma {:induction false} KeptMeaning(lines: seq<string>)
    ensures forall n :: n in Kept(lines) <==> IsTrackingName(n) && exists l :: l in lines && NameOfLine(l) == Some(n)
  {
    if lines != [] {
      var init, last := lines[..|lines| - 1], lines[|lines| - 1];
      KeptMeaning(init);
      assert lines == init + [last];
      forall n | IsTrackingName(n) && (exists l :: l in lines && NameOfLine(l) == Some(n)) ensures n in Kept(lines) {
        var l :| l in lines && NameOfLine(l) == Some(n);
        if l != last {
          assert l in init;
        }
      }
    }
  }

  /** The greater of two kept names, as the descending sort places it. */
  function Later(a: string, b: string): (r: string)
    requires MatchesPattern(a) && MatchesPattern(b)
  {
    if TupleLess((DateText(a), a), (DateText(b), b)) then b else a
  }

  /** `arquivos_tracking.sort(reverse=True)[0][1]`: the greatest kept name. */
  function Newest(names: seq<string>): (r: Option<string>)
    requires forall i :: 0 <= i < |names| ==> MatchesPattern(names[i])
    ensures r.Some? ==> MatchesPattern(r.value)
  {
    if names == [] then None
    else
      var last := names[|names| - 1];
      match Newest(names[..|names| - 1])
      case None => Some(last)
      case Some(m) => Some(Later(m, last))
  }

  predicate AllMatch(names: seq<string>) {
    forall i :: 0 <= i < |names| ==> MatchesPattern(names[i])
  }

  /** The result is present exactly when some name was kept; it is one of
      them, and no kept name comes after it. */
  lemma {:induction false} NewestIsGreatest(names: seq<string>)
    requires AllMatch(names)
    ensures Newest(names).None? <==> names == []
    ensures Newest(names).Some? ==> Newest(names).value in names
    ensures Newest(names).Some? ==> forall n :: n in names ==> !Less(Newest(names).value, n)
  {
    if names != [] {
      var init, last := names[..|names| - 1], names[|names| - 1];
      assert AllMatch(init);
      NewestIsGreatest(init);
      assert names == init + [last];
      var r := Newest(names).value;
      if init != [] {
        var m := Newest(init).value;
        KeyOrderIsNameOrder(m, last);
        forall n | n in names ensures !Less(r, n) {
          if Less(r, n) {
            if n == last {
              LessIrreflexive(r);
              if r == m { LessTotal(m, last); }
            } else {
              assert n in init && !Less(m, n);
              if r == m { } else { LessTransitive(m, last, n); }
            }
          }
        }
      } else {
        LessIrreflexive(last);
      }
    }
  }

  /** The result does not depend on the order of the listing: two listings
      with the same lines pick the same name. */
  lemma NewestIgnoresOrder(lines1: seq<string>, lines2: seq<string>)
    requires forall l :: l in lines1 <==> l in lines2
    ensures Newest(Kept(lines1)) == Newest(Kept(lines2))
  {
    var k1, k2 := Kept(lines1), Kept(lines2);
    KeptMeaning(lines1);
    KeptMeaning(lines2);
    assert forall n :: n in k1 <==> n in k2;
    NewestIsGreatest(k1);
    NewestIsGreatest(k2);
    if k1 != [] {
      assert k1[0] in k2;
      var r1, r2 := Newest(k1).value, Newest(k2).value;
      if r1 != r2 {
        LessTotal(r1, r2);
      }
    }
  }

  function KeyOf(name: string): (string, string)
    requires MatchesPattern(name)
  {
    (DateText(name), name)
  }

  /** The `(date, name)` tuples of kept names. */
  function Keys(names: seq<string>): (ks: seq<(string, string)>)
    requires AllMatch(names)
    ensures |ks| == |names|
    ensures forall k :: 0 <= k < |names| ==> ks[k] == KeyOf(names[k])
  {
    if names == [] then [] else Keys(names[..|names| - 1]) + [KeyOf(names[|names| - 1])]
  }

  /** One more line of the listing adds its name's key if it is kept. */
  lemma KeptStep(lines: seq<string>, i: nat)
    requires i < |lines|
    ensures var name := NameOfLine(lines[i]);
            Kept(lines[..i + 1]) == Kept(lines[..i]) + (if name.Some? && IsTrackingName(name.value) then [name.value] else [])
  {
    assert lines[..i + 1][..i] == lines[..i];
  }

  lemma NewestStep(names: seq<string>, k: nat)
    requires AllMatch(names) && 0 < k < |names|
    ensures AllMatch(names[..k]) && AllMatch(names[..k + 1])
    ensures Newest(names[..k + 1]) == Some(Later(Newest(names[..k]).value, names[k]))
  {
    assert names[..k + 1][..k] == names[..k];
    NewestIsGreatest(names[..k]);
  }

  /** `buscar_arquivo_mais_recente`: the name kept from the listing with the
      greatest `(date, name)`, or None when nothing is kept or the listing failed. */
  method BuscarArquivoMaisRecente(listing: Option<seq<string>>) returns (r: Option<string>)
    ensures listing.None? ==> r.None?
    ensures listing.Some? ==> r == Newest(Kept(listing.value))
  {
    if listing.None? {
      return None;
    }
    var lines := listing.value;
    var tracking: seq<(string, string)> := [];
    for i := 0 to |lines|
      invariant tracking == Keys(Kept(lines[..i]))
    {
      KeptStep(lines, i);
      var name := NameOfLine(lines[i]);
      if name.Some? && IsTrackingName(name.value) {
        tracking := tracking + [KeyOf(name.value)];
      }
    }
    assert lines[..|lines|] == lines;
    var kept := Kept(lines);
    if tracking == [] {
      return None;
    }
    assert kept[..1] == [kept[0]];
    var best := tracking[0];
    for k := 1 to |tracking|
      invariant best == KeyOf(Newest(kept[..k]).value)
    {
      NewestStep(kept, k);
      if TupleLess(best, tracking[k]) {
        best := tracking[k];
      }
    }
    assert kept[..|tracking|] == kept;
    return Some(best.1);
  }

  // ---------------------------------------------------------------------
  // The quoted date

  /** `strptime(data_str, '%Y-%m-%d')` raises ValueError. */
  datatype DateError = InvalidDate

  function DateOfName(name: string): (d: Date)
    requires MatchesPattern(name)
  {
    Date(DigitsValue(name[..4]), DigitsValue(name[5..7]), DigitsValue(name[8..10]))
  }

  /** `strftime('%d/%m/%Y')`, with the year written with four digits. */
  function FormatDayMonthYear(d: Date): (s: string)
    requires ValidDate(d) && d.year < 10000
    ensures |s| == 10 && s[2] == '/' && s[5] == '/'
  {
    TwoDigits(d.day) + "/" + TwoDigits(d.month) + "/" + FourDigits(d.year)
  }

  /** `extrair_data_arquivo`: the date of a matching name as `DD/MM/YYYY`,
      an error when that date does not exist, and `today` otherwise. */
  function ExtrairDataArquivo(name: string, today: Date): (r: Result<string, DateError>)
    requires ValidDate(today) && today.year < 10000
    ensures r.Err? ==> MatchesPattern(name) && !ValidDate(DateOfName(name))
  {
    if MatchesPattern(name) then
      var d := DateOfName(name);
      if ValidDate(d) then Ok(FormatDayMonthYear(d)) else Err(InvalidDate)
    else Ok(FormatDayMonthYear(today))
  }

  lemma TwoDigitsOfText(s: string)
    requires |s| == 2 && AllDigits(s)
    ensures TwoDigits(DigitsValue(s)) == s
  {
    assert s[..1][..0] == [];
  }

  lemma FourDigitsOfText(s: string)
    requires |s| == 4 && AllDigits(s)
    ensures FourDigits(DigitsValue(s)) == s
  {
    var h, l := s[..2], s[2..];
    var d0, d1, d2, d3 := s[0] as int - '0' as int, s[1] as int - '0' as int, s[2] as int - '0' as int, s[3] as int - '0' as int;
    assert s[..3][..2] == h && s[..2][..1] == s[..1] && s[..1][..0] == [];
    assert DigitsValue(h) == d0 * 10 + d1;
    assert l[..1][..0] == [] && l[..1] == [s[2]];
    assert DigitsValue(l) == d2 * 10 + d3;
    var v := DigitsValue(s);
    assert DigitsValue(s[..3]) == DigitsValue(h) * 10 + d2;
    assert v == DigitsValue(s[..3]) * 10 + d3;
    assert v == (d0 * 10 + d1) * 100 + (d2 * 10 + d3);
    assert v / 100 == DigitsValue(h) && v % 100 == DigitsValue(l);
    TwoDigitsOfText(h);
    TwoDigitsOfText(l);
    assert s == h + l;
  }

  /** A real date in the name is quoted by rearranging its own digits:
      `YYYY-MM-DD_...` becomes `DD/MM/YYYY`. */
  lemma QuotedDateRearrangesName(name: string, today: Date)
    requires ValidDate(today) && today.year < 10000
    requires MatchesPattern(name) && ValidDate(DateOfName(name))
    ensures ExtrairDataArquivo(name, today) == Ok(name[8..10] + "/" + name[5..7] + "/" + name[..4])
  {
    TwoDigitsOfText(name[8..10]);
    TwoDigitsOfText(name[5..7]);
    FourDigitsOfText(name[..4]);
  }

  /** A name that does not match quotes today's date. */
  lemma OtherNamesQuoteToday(name: string, today: Date)
    requires ValidDate(today) && today.year < 10000
    requires !MatchesPattern(name)
    ensures ExtrairDataArquivo(name, today) == Ok(FormatDayMonthYear(today))
  {
  }
}
