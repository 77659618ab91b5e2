/** Processo_6.py: after the browser has asked for the report's spreadsheet,
    the newest `.xlsx` downloaded since the run began is picked
    (`_obter_arquivo_recente`), its delivered `.fpl` rows are summed
    (`_processar_arquivo_excel`), and the run reports success when that gave
    a result (`executar`). The browser, the download folder and the
    spreadsheet reader are inputs. */
module GaExtraction {
  import opened Text

  /** A name in the download folder and what `os.path.getmtime` reports for
      it (None when it raises). */
  datatype Download = Download(name: string, mtime: Option<nat>)

  /** A candidate download: an `.xlsx` that is not an Office lock file (`~...`). */
  predicate IsCandidate(name: string) {
    EndsWith(name, ".xlsx") && !StartsWith(name, "~")
  }

  /** The candidates, in listing order (`arquivos_xlsx`). */
  function Candidates(ds: seq<Download>): (cs: seq<Download>)
    ensures |cs| <= |ds|
    ensures forall i :: 0 <= i < |cs| ==> IsCandidate(cs[i].name) && cs[i] in ds
    ensures forall d :: d in cs <==> d in ds && IsCandidate(d.name)
  {
    if ds == [] then []
    else
      var last := ds[|ds| - 1];
      var init := Candidates(ds[..|ds| - 1]);
      assert forall i :: 0 <= i < |init| ==> init[i] in ds;
      init + (if IsCandidate(last.name) then [last] else [])
  }

  /** The candidates keep listing order: those of a joined listing are those
      of its first part followed by those of its second. */
  lemma {:induction false} CandidatesAppend(a: seq<Download>, b: seq<Download>)
    ensures Candidates(a + b) == Candidates(a) + Candidates(b)
    decreases |b|
  {
    if b == [] {
      assert a + b == a;
    } else {
      var b' := b[..|b| - 1];
      assert (a + b)[..|a + b| - 1] == a + b';
      CandidatesAppend(a, b');
    }
  }

  /** Modified after the run began and less than 30 seconds before `now`. */
  predicate IsFresh(mtime: nat, startedAt: nat, now: nat) {
    mtime > startedAt && now as int - mtime as int < 30
  }

  predicate AllStated(cs: seq<Download>) {
    forall d :: d in cs ==> d.mtime.Some?
  }

  /** The fresh candidates (`arquivos_novos`). */
  function Fresh(cs: seq<Download>, startedAt: nat, now: nat): (fs: seq<Download>)
    requires AllStated(cs)
    ensures |fs| <= |cs| && AllStated(fs)
    ensures forall i :: 0 <= i < |fs| ==> fs[i] in cs && IsFresh(fs[i].mtime.value, startedAt, now)
  {
    if cs == [] then []
    else
      var last := cs[|cs| - 1];
      var init := Fresh(cs[..|cs| - 1], startedAt, now);
      assert forall i :: 0 <= i < |init| ==> init[i] in cs;
      init + (if IsFresh(last.mtime.value, startedAt, now) then [last] else [])
  }

  /** The position of `max(arquivos_novos, key=getmtime)`: the first
      download with the greatest modification time. */
  function NewestIndex(fs: seq<Download>): (k: nat)
    requires fs != [] && AllStated(fs)
    ensures k < |fs|
  {
    if |fs| == 1 then 0
    else
      var k := NewestIndex(fs[..|fs| - 1]);
      if fs[|fs| - 1].mtime.value > fs[k].mtime.value then |fs| - 1 else k
  }

  function FirstNewest(fs: seq<Download>): (d: Download)
    requires fs != [] && AllStated(fs)
    ensures d in fs && d.mtime.Some?
  {
    fs[NewestIndex(fs)]
  }

  /** The pick is at least as new as every fresh download and strictly newer
      than every one listed before it: Python's `max` keeps the first of equals. */
  lemma {:induction false} NewestIsFirstMaximum(fs: seq<Download>)
    requires fs != [] && AllStated(fs)
    ensures var k := NewestIndex(fs);
            && (forall j :: 0 <= j < |fs| ==> fs[j].mtime.value <= fs[k].mtime.value)
            && (forall j :: 0 <= j < k ==> fs[j].mtime.value < fs[k].mtime.value)
  {
    if |fs| > 1 {
      var init := fs[..|fs| - 1];
      NewestIsFirstMaximum(init);
      assert forall j :: 0 <= j < |init| ==> fs[j] == init[j];
    }
  }

  /** `_obter_arquivo_recente` as a value: None when the folder cannot be
      listed, when the modification time of a candidate cannot be read, or
      when no candidate is fresh. */
  function RecentDownload(listing: Option<seq<Download>>, startedAt: nat, now: nat): (r: Option<string>)
    ensures r.Some? ==> IsCandidate(r.value)
  {
    if listing.None? then None
    else
      var cs := Candidates(listing.value);
      if !AllStated(cs) then None
      else
        var fs := Fresh(cs, startedAt, now);
        if fs == [] then None else Some(FirstNewest(fs).name)
  }

  /** The download picked is a listed, fresh candidate, and no fresh candidate
      is newer; without a fresh candidate nothing is picked. */
  lemma RecentDownloadMeaning(ds: seq<Download>, startedAt: nat, now: nat)
    requires AllStated(Candidates(ds))
    ensures var r := RecentDownload(Some(ds), startedAt, now);
            && (r.None? <==> forall d :: d in Candidates(ds) ==> !IsFresh(d.mtime.value, startedAt, now))
            && (r.Some? ==> exists d :: && d in ds && d.mtime.Some? && d.name == r.value && IsCandidate(d.name)
                                        && IsFresh(d.mtime.value, startedAt, now)
                                        && forall e :: e in Candidates(ds) && IsFresh(e.mtime.value, startedAt, now)
                                                       ==> e.mtime.value <= d.mtime.value)
  {
    var cs := Candidates(ds);
    FreshMeaning(cs, startedAt, now);
    var fs := Fresh(cs, startedAt, now);
    if fs != [] {
      NewestIsFirstMaximum(fs);
      var d := FirstNewest(fs);
      assert d in cs;
      forall e | e in Candidates(ds) && IsFresh(e.mtime.value, startedAt, now) ensures e.mtime.value <= d.mtime.value {
        assert e in fs;
        var j :| 0 <= j < |fs| && fs[j] == e;
      }
    } else {
      assert forall d :: d in cs ==> !IsFresh(d.mtime.value, startedAt, now);
    }
  }

  lemma {:induction false} FreshMeaning(cs: seq<Download>, startedAt: nat, now: nat)
    requires AllStated(cs)
    ensures forall d :: d in Fresh(cs, startedAt, now) <==> d in cs && IsFresh(d.mtime.value, startedAt, now)
  {
    if cs != [] {
      FreshMeaning(cs[..|cs| - 1], startedAt, now);
      assert cs == cs[..|cs| - 1] + [cs[|cs| - 1]];
    }
  }

  // ---------------------------------------------------------------------
  // The spreadsheet

  /** One row, as the filter reads it: column D and column G as text, column
      E as a number. */
  datatype Row = Row(d: string, e: int, g: string)

  /** The spreadsheet as `read_excel` gives it: its number of columns and rows. */
  datatype Sheet = Sheet(columns: nat, rows: seq<Row>)

  /** `str.contains("." + word, case=False)`: the pattern is a regular
      expression, so its dot is any character but a newline, followed by the
      word in any case. */
  predicate ContainsDotWord(s: string, word: string) {
    exists k :: 0 <= k && k + 1 + |word| <= |s| && s[k] != '\n' && Upper(s[k + 1..k + 1 + |word|]) == Upper(word)
  }

  /** A row counts: column G says "ENTREGUE" in any case, and column D names
      an `.fpl` file and no `.txt` file (in the pattern sense above). */
  predicate Counts(r: Row) {
    Upper(r.g) == "ENTREGUE" && !ContainsDotWord(r.d, "txt") && ContainsDotWord(r.d, "fpl")
  }

  /** The sum of column E over the counted rows. */
  function Total(rows: seq<Row>): int {
    if rows == [] then 0
    else Total(rows[..|rows| - 1]) + (if Counts(rows[|rows| - 1]) then rows[|rows| - 1].e else 0)
  }

  /** The total is a sum over rows: two blocks of rows add up. */
  lemma {:induction false} TotalAppend(a: seq<Row>, b: seq<Row>)
    ensures Total(a + b) == Total(a) + Total(b)
    decreases |b|
  {
    if b == [] {
      assert a + b == a;
    } else {
      assert (a + b)[..|a + b| - 1] == a + b[..|b| - 1];
      TotalAppend(a, b[..|b| - 1]);
    }
  }

  /** Rows that do not count add nothing, whatever their column E holds. */
  lemma {:induction false} UncountedRowsAddNothing(rows: seq<Row>)
    requires forall i :: 0 <= i < |rows| ==> !Counts(rows[i])
    ensures Total(rows) == 0
  {
    if rows != [] {
      UncountedRowsAddNothing(rows[..|rows| - 1]);
    }
  }

  /** The regular-expression dot: "XFPL" counts as naming an `.fpl` file just
      as ".fpl" does, and any character before "txt" excludes the row. */
  lemma DotIsAnyCharacter(s: string, c: char)
    requires c != '\n' && s == [c, 'F', 'P', 'L']
    ensures ContainsDotWord(s, "fpl")
  {
    assert s[1..4] == "FPL";
    assert Upper("FPL") == "FPL" && Upper("fpl") == "FPL";
    assert s[0] != '\n' && 0 + 1 + |"fpl"| <= |s|;
  }

  /** The file name and total a successful extraction reports. */
  datatype Extraction = Extraction(total: int, file: string)

  /** `_processar_arquivo_excel` as a value: a file must be picked and still be
      there, and the reader must succeed; a sheet with fewer than seven
      columns totals 0. */
  function Process(picked: Option<string>, stillThere: bool, sheet: Option<Sheet>): (r: Option<Extraction>)
    ensures r.Some? ==> picked == Some(r.value.file)
  {
    if picked.None? || !stillThere || sheet.None? then None
    else Some(Extraction(if sheet.value.columns >= 7 then Total(sheet.value.rows) else 0, picked.value))
  }

  lemma FreshStep(cs: seq<Download>, i: nat, startedAt: nat, now: nat)
    requires i < |cs| && AllStated(cs[..i]) && cs[i].mtime.Some?
    ensures AllStated(cs[..i + 1])
    ensures Fresh(cs[..i + 1], startedAt, now)
            == Fresh(cs[..i], startedAt, now) + (if IsFresh(cs[i].mtime.value, startedAt, now) then [cs[i]] else [])
  {
    assert cs[..i + 1] == cs[..i] + [cs[i]];
    assert cs[..i + 1][..i] == cs[..i];
  }

  /** The extraction run: the moment it began, and the files it has processed. */
  class Automation {
    const startedAt: nat
    var processed: seq<string>

    constructor(startedAt: nat)
      ensures this.startedAt == startedAt && processed == []
    {
      this.startedAt := startedAt;
      processed := [];
    }

    /** `_obter_arquivo_recente()`: the loop that gathers the fresh candidates,
        then `max` over them. */
    method ObterArquivoRecente(listing: Option<seq<Download>>, now: nat) returns (r: Option<string>)
      ensures r == RecentDownload(listing, startedAt, now)
    {
      if listing.None? {
        return None;
      }
      var cs := Candidates(listing.value);
      if cs == [] {
        return None;
      }
      var novos: seq<Download> := [];
      for i := 0 to |cs|
        invariant AllStated(cs[..i]) && novos == Fresh(cs[..i], startedAt, now)
      {
        if cs[i].mtime.None? {
          assert cs[i] in cs;
          return None;
        }
        FreshStep(cs, i, startedAt, now);
        if IsFresh(cs[i].mtime.value, startedAt, now) {
          novos := novos + [cs[i]];
        }
      }
      assert cs[..|cs|] == cs;
      if novos == [] {
        return None;
      }
      return Some(FirstNewest(novos).name);
    }

    /** `_processar_arquivo_excel()`: a successful extraction records its file
        as processed; a failed one changes nothing. */
    method ProcessarArquivoExcel(listing: Option<seq<Download>>, now: nat, stillThere: bool, sheet: Option<Sheet>)
      returns (r: Option<Extraction>)
      modifies this
      ensures r == Process(RecentDownload(listing, startedAt, now), stillThere, sheet)
      ensures processed == old(processed) + (if r.Some? then [r.value.file] else [])
    {
      var arquivo := ObterArquivoRecente(listing, now);
      if arquivo.None? || !stillThere || sheet.None? {
        return None;
      }
      var total := 0;
      if sheet.value.columns >= 7 {
        total := Total(sheet.value.rows);
      }
      processed := processed + [arquivo.value];
      return Some(Extraction(total, arquivo.value));
    }

    /** `executar()`: True exactly when the browser steps succeeded and the
        spreadsheet gave a result. */
    method Executar(browserOk: bool, listing: Option<seq<Download>>, now: nat, stillThere: bool, sheet: Option<Sheet>)
      returns (ok: bool)
      modifies this
      ensures ok <==> browserOk && Process(RecentDownload(listing, startedAt, now), stillThere, sheet).Some?
      ensures processed == old(processed) + (if ok then [RecentDownload(listing, startedAt, now).value] else [])
    {
      if !browserOk {
        return false;
      }
      var resultado := ProcessarArquivoExcel(listing, now, stillThere, sheet);
      return resultado.Some?;
    }
  }

  /** A run succeeds only with a fresh `.xlsx` candidate in the folder. */
  lemma SuccessNeedsFreshDownload(listing: Option<seq<Download>>, startedAt: nat, now: nat, stillThere: bool, sheet: Option<Sheet>)
    requires Process(RecentDownload(listing, startedAt, now), stillThere, sheet).Some?
    ensures listing.Some?
    ensures exists d :: d in listing.value && IsCandidate(d.name) && d.mtime.Some? && IsFresh(d.mtime.value, startedAt, now)
  {
    var cs := Candidates(listing.value);
    RecentDownloadMeaning(listing.value, startedAt, now);
  }
}
