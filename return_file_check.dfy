/** The verification run of Processo_3.py: `find_matches` sorts the scanned
    files into those that pass and those named for the day but outside the
    time window, and `executar` turns the schedule, the ping, the scan and
    the external timeout into one outcome and a success flag. The Teams card
    and the log lines that accompany each outcome are not modelled; the
    outcome carries the data the card shows. */
module ReturnFileCheck {
  import opened Text
  import opened RunSchedule
  import opened MatchRules
  import opened FolderScan
  import opened NewestFirst

  /** The settings `Processo3` reads: folder, slots, lag, window, prefix,
      check mode (any text; only "both", "filename" and "mtime" mean
      something), `include_subfolders`, `max_files_to_scan`, `scan_max_seconds`. */
  datatype CheckConfig = CheckConfig(
    folderPath: string,
    schedules: seq<string>,
    lagMinutes: nat,
    windowSeconds: nat,
    prefix: string,
    mode: string,
    includeSubfolders: bool,
    maxFiles: nat,
    maxSeconds: nat)

  function ScanOf(c: CheckConfig): ScanConfig {
    ScanConfig(c.prefix, c.includeSubfolders, c.maxFiles, c.maxSeconds)
  }

  /** What `find_matches` does with one yielded file. */
  datatype Verdict = Match | OutOfWindow | Skip

  /** The test of one yielded file against the expected moment: a file whose
      `stat()` fails is skipped; "both" wants the name and the time, and keeps
      a file with the right name but the wrong time aside; "filename" and
      "mtime" want one test each; any other mode accepts nothing. */
  function Classify(c: CheckConfig, expected: nat, x: ScannedFile): (v: Verdict)
    ensures v != Skip ==> x.stat.Some?
    ensures v == OutOfWindow ==> c.mode == "both"
  {
    match x.stat
    case None => Skip
    case Some(st) =>
      var byName := (c.mode == "filename" || c.mode == "both") && NameIsTodayEx(c.prefix, x.name, expected);
      var byMtime := (c.mode == "mtime" || c.mode == "both") && WithinTimeWindow(st.mtime, expected, c.windowSeconds);
      if c.mode == "both" then
        if byName && byMtime then Match else if byName then OutOfWindow else Skip
      else if c.mode == "filename" then (if byName then Match else Skip)
      else if c.mode == "mtime" then (if byMtime then Match else Skip)
      else Skip
  }

  /** In the configured "both" mode a file passes exactly when it has a stat,
      its name is the prefix (any case) followed by the expected day's DDMMYY,
      and twice its distance from the expected moment is at most the window;
      it is kept aside exactly when the name is right and the time is not. */
  lemma BothModeMeaning(c: CheckConfig, expected: nat, x: ScannedFile)
    requires c.mode == "both"
    ensures var p, w := c.prefix, c.windowSeconds;
            var nameOk := && StartsWithIgnoringCase(x.name, p)
                          && |p| + 6 <= |x.name|
                          && x.name[|p|..|p| + 6] == TodayToken(expected);
            var timeOk := x.stat.Some? &&
                          2 * expected - w <= 2 * x.stat.value.mtime <= 2 * expected + w;
            && (Classify(c, expected, x) == Match <==> x.stat.Some? && nameOk && timeOk)
            && (Classify(c, expected, x) == OutOfWindow <==> x.stat.Some? && nameOk && !timeOk)
  {
    NameTestMeaning(c.prefix, x.name, expected);
    if x.stat.Some? {
      WindowInWholeSeconds(x.stat.value.mtime, expected, c.windowSeconds);
    }
  }

  /** The files of `xs` with verdict `v`, in order. */
  function Select(c: CheckConfig, expected: nat, xs: seq<ScannedFile>, v: Verdict): (r: seq<ScannedFile>)
    ensures |r| <= |xs|
  {
    if xs == [] then []
    else
      var last := xs[|xs| - 1];
      Select(c, expected, xs[..|xs| - 1], v) + (if Classify(c, expected, last) == v then [last] else [])
  }

  /** A file is selected exactly when it was yielded and has that verdict. */
  lemma {:induction false} SelectMeaning(c: CheckConfig, expected: nat, xs: seq<ScannedFile>, v: Verdict)
    ensures forall x :: x in Select(c, expected, xs, v) <==> x in xs && Classify(c, expected, x) == v
  {
    if xs != [] {
      SelectMeaning(c, expected, xs[..|xs| - 1], v);
      assert xs == xs[..|xs| - 1] + [xs[|xs| - 1]];
    }
  }

  lemma {:induction false} SelectAppend(c: CheckConfig, expected: nat, a: seq<ScannedFile>, b: seq<ScannedFile>, v: Verdict)
    ensures Select(c, expected, a + b, v) == Select(c, expected, a, v) + Select(c, expected, b, v)
    decreases |b|
  {
    if b == [] {
      assert a + b == a;
    } else {
      var b' := b[..|b| - 1];
      assert (a + b)[..|a + b| - 1] == a + b';
      SelectAppend(c, expected, a, b', v);
    }
  }

  /** A file counts once at most: no file is both found and kept aside, and
      the two buckets together never outnumber the files seen. */
  lemma {:induction false} SelectDisjoint(c: CheckConfig, expected: nat, xs: seq<ScannedFile>)
    ensures |Select(c, expected, xs, Match)| + |Select(c, expected, xs, OutOfWindow)| <= |xs|
    ensures forall x :: x in Select(c, expected, xs, Match) ==> x !in Select(c, expected, xs, OutOfWindow)
  {
    SelectMeaning(c, expected, xs, Match);
    SelectMeaning(c, expected, xs, OutOfWindow);
    if xs != [] {
      SelectDisjoint(c, expected, xs[..|xs| - 1]);
    }
  }

  /** Only "both" keeps files aside, and a mode that is none of the three finds nothing. */
  lemma {:induction false} ModesThatKeepNothingAside(c: CheckConfig, expected: nat, xs: seq<ScannedFile>)
    ensures c.mode != "both" ==> Select(c, expected, xs, OutOfWindow) == []
    ensures c.mode != "both" && c.mode != "filename" && c.mode != "mtime" ==> Select(c, expected, xs, Match) == []
  {
    if xs != [] {
      ModesThatKeepNothingAside(c, expected, xs[..|xs| - 1]);
    }
  }

  /** The two lists `find_matches` returns, and `total_seen`. */
  datatype Matches = Matches(found: seq<ScannedFile>, outOfWindow: seq<ScannedFile>, totalSeen: nat)

  /** `folder.exists()` is false: FileNotFoundError. */
  datatype FindError = FolderMissing

  function MatchesOf(c: CheckConfig, expected: nat, files: seq<ScannedFile>): Matches {
    Matches(Select(c, expected, files, Match), Select(c, expected, files, OutOfWindow), |files|)
  }

  /** `find_matches(expected_dt)`: the folder is `root` (None when it does not
      exist); every file the bounded walk yields is counted and classified. */
  method FindMatches(c: CheckConfig, clock: Clock, root: Option<Node>, expected: nat) returns (r: Result<Matches, FindError>)
    ensures root.None? <==> r == Err(FolderMissing)
    ensures root.Some? ==> r == Ok(MatchesOf(c, expected, IterFiles(ScanOf(c), clock, root.value).files))
  {
    if root.None? {
      return Err(FolderMissing);
    }
    var files, _ := IterFilesWithLimits(ScanOf(c), clock, root.value);
    var found, outOfWindow, totalSeen := [], [], 0;
    for i := 0 to |files|
      invariant found == Select(c, expected, files[..i], Match)
      invariant outOfWindow == Select(c, expected, files[..i], OutOfWindow)
      invariant totalSeen == i
    {
      var f := files[i];
      assert files[..i + 1][..i] == files[..i];
      totalSeen := totalSeen + 1;
      var v := Classify(c, expected, f);
      if v == Match {
        found := found + [f];
      } else if v == OutOfWindow {
        outOfWindow := outOfWindow + [f];
      }
    }
    assert files[..|files|] == files;
    return Ok(Matches(found, outOfWindow, totalSeen));
  }

  /** Budgets and a steady clock never change which files pass, only how far
      down the listing the walk gets: the found files are the first of the
      files the unbounded walk would find, and all of them when no budget is set. */
  lemma FoundAreFirstOfAll(c: CheckConfig, clock: Clock, root: Node, expected: nat)
    requires SteadyClock(ScanOf(c), clock)
    ensures var m := MatchesOf(c, expected, IterFiles(ScanOf(c), clock, root).files);
            var all := Select(c, expected, AllCandidates(ScanOf(c), root), Match);
            && IsPrefix(m.found, all)
            && (c.maxFiles == 0 && c.maxSeconds == 0 ==> m.found == all)
  {
    var files := IterFiles(ScanOf(c), clock, root).files;
    var every := AllCandidates(ScanOf(c), root);
    IterFilesMeaning(ScanOf(c), clock, root);
    assert every == files + every[|files|..];
    SelectAppend(c, expected, files, every[|files|..], Match);
    if c.maxFiles == 0 && c.maxSeconds == 0 {
      NoBudgetsYieldsAll(ScanOf(c), clock, root);
    }
  }

  /** The outcomes of `executar`, each with the data its Teams card shows. */
  datatype Outcome =
    | WindowFailed(error: WindowError)                        // "Falha ao calcular janela"
    | HostUnreachable(host: string)                           // no reply to the ping
    | ExternalTimeout(seconds: nat)                           // the scan thread still running
    | CheckFailed                                             // `find_matches` raised
    | FilesFound(run: nat, total: nat, shown: seq<ScannedFile>)
    | NotReceived(run: nat, outOfWindow: nat, shown: seq<ScannedFile>)

  /** The outcome of one run at moment `now`. `pingOk` is the ping's answer
      and `timedOut` whether the scan thread was still alive after
      `scan_max_seconds + 10` seconds; both come from outside the model. */
  function Verification(c: CheckConfig, now: nat, clock: Clock, root: Option<Node>, pingOk: bool, timedOut: bool): Outcome {
    match PreviousRunSchedule(now, c.schedules, c.lagMinutes)
    case Err(e) => WindowFailed(e)
    case Ok(w) =>
      var host := ExtractHostFromUnc(c.folderPath);
      if host.Some? && host.value != [] && !pingOk then HostUnreachable(host.value)
      else if timedOut then ExternalTimeout(c.maxSeconds + 10)
      else if root.None? then CheckFailed
      else
        var m := MatchesOf(c, w.expected, IterFiles(ScanOf(c), clock, root.value).files);
        if m.found != [] then FilesFound(w.run, |m.found|, Shown(m.found))
        else NotReceived(w.run, |m.outOfWindow|, Shown(m.outOfWindow))
  }

  /** `executar()`: the outcome of the run, and True exactly when files were found. */
  method Executar(c: CheckConfig, now: nat, clock: Clock, root: Option<Node>, pingOk: bool, timedOut: bool)
    returns (ok: bool, outcome: Outcome)
    ensures outcome == Verification(c, now, clock, root, pingOk, timedOut)
    ensures ok <==> outcome.FilesFound?
  {
    var window := PreviousRunSchedule(now, c.schedules, c.lagMinutes);
    if window.Err? {
      return false, WindowFailed(window.error);
    }
    var w := window.value;
    var host := ExtractHostFromUnc(c.folderPath);
    if host.Some? && host.value != [] && !pingOk {
      return false, HostUnreachable(host.value);
    }
    if timedOut {
      return false, ExternalTimeout(c.maxSeconds + 10);
    }
    var res := FindMatches(c, clock, root, w.expected);
    if res.Err? {
      return false, CheckFailed;
    }
    var m := res.value;
    if m.found != [] {
      return true, FilesFound(w.run, |m.found|, Shown(m.found));
    }
    return false, NotReceived(w.run, |m.outOfWindow|, Shown(m.outOfWindow));
  }

  /** The run succeeds exactly when the window is computed, the host (if the
      path names one) answers, the scan finishes in time, the folder exists,
      and the walk yields a file that passes. */
  lemma SuccessMeansFileFound(c: CheckConfig, now: nat, clock: Clock, root: Option<Node>, pingOk: bool, timedOut: bool)
    ensures var host, w := ExtractHostFromUnc(c.folderPath), PreviousRunSchedule(now, c.schedules, c.lagMinutes);
            Verification(c, now, clock, root, pingOk, timedOut).FilesFound?
            <==> && w.Ok?
                 && (host.None? || host.value == [] || pingOk)
                 && !timedOut
                 && root.Some?
                 && exists x :: x in IterFiles(ScanOf(c), clock, root.value).files && Classify(c, w.value.expected, x) == Match
  {
    var w := PreviousRunSchedule(now, c.schedules, c.lagMinutes);
    if w.Ok? && root.Some? {
      var files := IterFiles(ScanOf(c), clock, root.value).files;
      SelectMeaning(c, w.value.expected, files, Match);
      var found := Select(c, w.value.expected, files, Match);
      if found != [] {
        assert found[0] in found;
      }
    }
  }

  /** A success names the run the window chose, counts every found file,
      and lists the five newest of them, newest first, each of which passed. */
  lemma SuccessReport(c: CheckConfig, now: nat, clock: Clock, root: Option<Node>, pingOk: bool, timedOut: bool)
    requires Verification(c, now, clock, root, pingOk, timedOut).FilesFound?
    ensures var o, w := Verification(c, now, clock, root, pingOk, timedOut), PreviousRunSchedule(now, c.schedules, c.lagMinutes);
            && w.Ok? && root.Some? && o.run == w.value.run && o.run <= now
            && o.total >= 1
            && |o.shown| == (if o.total < 5 then o.total else 5)
            && IsNewestFirst(o.shown)
            && (forall x :: x in o.shown ==> Classify(c, w.value.expected, x) == Match)
  {
    var w := PreviousRunSchedule(now, c.schedules, c.lagMinutes).value;
    var found := Select(c, w.expected, IterFiles(ScanOf(c), clock, root.value).files, Match);
    ShownAreTheNewest(found);
    SelectMeaning(c, w.expected, IterFiles(ScanOf(c), clock, root.value).files, Match);
  }

  /** A spent scan budget is never an error of the run: once the window is
      known, the host answers and the thread finishes, an existing folder
      always ends in "found" or "not received": no budget breach ever reaches
      the TimeoutError handler of `executar`. */
  lemma BudgetBreachIsNotAnError(c: CheckConfig, now: nat, clock: Clock, root: Node, pingOk: bool)
    requires PreviousRunSchedule(now, c.schedules, c.lagMinutes).Ok?
    requires pingOk
    ensures var o := Verification(c, now, clock, Some(root), pingOk, false);
            o.FilesFound? || o.NotReceived?
  {
  }

  /** A failed run that reached the scan lists the files with the right name
      but the wrong time, the five newest of them. */
  lemma NotReceivedReport(c: CheckConfig, now: nat, clock: Clock, root: Option<Node>, pingOk: bool, timedOut: bool)
    requires Verification(c, now, clock, root, pingOk, timedOut).NotReceived?
    ensures var o, w := Verification(c, now, clock, root, pingOk, timedOut), PreviousRunSchedule(now, c.schedules, c.lagMinutes);
            && w.Ok? && root.Some?
            && (forall x :: x in IterFiles(ScanOf(c), clock, root.value).files ==> Classify(c, w.value.expected, x) != Match)
            && |o.shown| == (if o.outOfWindow < 5 then o.outOfWindow else 5)
            && (forall x :: x in o.shown ==> c.mode == "both" && Classify(c, w.value.expected, x) == OutOfWindow)
  {
    var w := PreviousRunSchedule(now, c.schedules, c.lagMinutes).value;
    var files := IterFiles(ScanOf(c), clock, root.value).files;
    SelectMeaning(c, w.expected, files, Match);
    SelectMeaning(c, w.expected, files, OutOfWindow);
    var aside := Select(c, w.expected, files, OutOfWindow);
    ShownAreTheNewest(aside);
  }

  /** The monitored share is pinged at its host: when 172.20.1.43 does not
      answer, the run stops there whatever the folder holds. */
  lemma ConfiguredShareUnreachable(c: CheckConfig, now: nat, clock: Clock, root: Option<Node>, timedOut: bool)
    requires c.folderPath == @"\\" + "172.20.1.43" + @"\C\SANTANDER\retorno\BKP"
    requires PreviousRunSchedule(now, c.schedules, c.lagMinutes).Ok?
    ensures Verification(c, now, clock, root, false, timedOut) == HostUnreachable("172.20.1.43")
  {
    ConfiguredHost(c.folderPath);
  }

  /** A path without a host (a bare `\\`, or a drive path) is not pinged. */
  lemma NoHostNoPing(c: CheckConfig, now: nat, clock: Clock, root: Option<Node>, timedOut: bool)
    requires c.folderPath == @"C:\SANTANDER" || c.folderPath == @"\\"
    ensures Verification(c, now, clock, root, false, timedOut) == Verification(c, now, clock, root, true, timedOut)
  {
    DegenerateHosts();
  }
}
