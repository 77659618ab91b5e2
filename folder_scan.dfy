/** `iter_files_with_limits` of Processo_3.py: a depth-first walk of the
    monitored folder that yields the regular files whose name starts with the
    prefix (ignoring case), under a time budget and a file-count budget.

    The folder is a tree of directory entries as `os.scandir` lists them
    without following links. The wall clock is an input: `clock(k)` is the
    elapsed time, in seconds, that `check_limits` reads at its k-th call
    (counted from 0 over the whole walk).

    A budget that runs out raises TimeoutError, which is an OSError, so the
    `except OSError` of the directory being listed catches it: a warning is
    logged and that directory ends, and the walk carries on in the directory
    above. The breach never reaches the caller. */
module FolderScan {
  import opened Text

  /** What `Path.stat()` reports: modification moment (seconds on the same
      timeline as Calendar) and size in bytes. */
  datatype Stat = Stat(mtime: nat, size: nat)

  /** The OSErrors that listing a directory can raise. */
  datatype OsError = PermissionDenied | NotFound | OtherOsError

  /** A directory entry. A folder's listing yields `entries` and then, if
      `failure` is present, raises it (a folder that cannot be opened at all
      has no entries). A file's `stat` is None when `Path.stat()` raises.
      `Other` is a link, device or anything else that is neither a directory
      nor a regular file when links are not followed. */
  datatype Node =
    | File(name: string, stat: Option<Stat>)
    | Folder(name: string, entries: seq<Node>, failure: Option<OsError>)
    | Other(name: string)

  /** A yielded file: the folder names from the root down to it, and its entry. */
  datatype ScannedFile = ScannedFile(dir: seq<string>, name: string, stat: Option<Stat>)

  datatype Cause = OsFailure | TimeLimit | FileLimit

  /** The warnings the walk logs: "Sem permissão em" and "Falha ao ler dir". */
  datatype ScanWarning = NoPermission(dir: seq<string>) | ReadFailed(dir: seq<string>, cause: Cause)

  /** The prefix, `include_subfolders`, `max_files_to_scan` and
      `scan_max_seconds`; a budget of 0 is switched off, as Python's
      truthiness test makes it. */
  datatype ScanConfig = ScanConfig(prefix: string, includeSubfolders: bool, maxFiles: nat, maxSeconds: nat)

  /** The walk so far: the files yielded (`seen` is their number), the
      warnings logged, and how many times the budgets were checked. */
  datatype ScanState = ScanState(files: seq<ScannedFile>, warnings: seq<ScanWarning>, checks: nat)

  type Clock = nat -> real

  const Start := ScanState([], [], 0)

  /** `r` was reached from `st` by adding files and warnings at the end. */
  predicate Extends(st: ScanState, r: ScanState) {
    && |st.files| <= |r.files| && r.files[..|st.files|] == st.files
    && |st.warnings| <= |r.warnings| && r.warnings[..|st.warnings|] == st.warnings
    && st.checks <= r.checks
  }

  /** The files a walk from `st` added. */
  function NewFiles(st: ScanState, r: ScanState): seq<ScannedFile>
    requires |st.files| <= |r.files|
  {
    r.files[|st.files|..]
  }

  /** `check_limits`: the time budget is tested first, then the count. */
  function LimitHit(cfg: ScanConfig, clock: Clock, st: ScanState): (hit: Option<Cause>)
    ensures hit == Some(FileLimit) ==> cfg.maxFiles > 0 && |st.files| >= cfg.maxFiles
    ensures hit.None? ==> cfg.maxFiles == 0 || |st.files| < cfg.maxFiles
    ensures hit.None? ==> cfg.maxSeconds == 0 || clock(st.checks) <= cfg.maxSeconds as real
    ensures hit != Some(OsFailure)
  {
    if cfg.maxSeconds > 0 && clock(st.checks) > cfg.maxSeconds as real then Some(TimeLimit)
    else if cfg.maxFiles > 0 && |st.files| >= cfg.maxFiles then Some(FileLimit)
    else None
  }

  /** The handlers of `scan_dir`: PermissionError and other OSErrors are
      logged, FileNotFoundError is ignored. */
  function AfterFailure(failure: Option<OsError>, dir: seq<string>, st: ScanState): (r: ScanState)
    ensures Extends(st, r) && r.files == st.files && r.checks == st.checks
  {
    match failure
    case None => st
    case Some(PermissionDenied) => st.(warnings := st.warnings + [NoPermission(dir)])
    case Some(NotFound) => st
    case Some(OtherOsError) => st.(warnings := st.warnings + [ReadFailed(dir, OsFailure)])
  }

  /** The walk of folder `f` at path `dir`, starting from state `st`. */
  function ScanFolder(cfg: ScanConfig, clock: Clock, dir: seq<string>, f: Node, st: ScanState): (r: ScanState)
    requires f.Folder?
    ensures Extends(st, r)
    decreases f, 1
  {
    ScanEntries(cfg, clock, dir, f, 0, st)
  }

  /** The walk of `f`'s entries from the `i`-th on. Before each entry the
      budgets are checked; a breach logs a warning and ends this folder. */
  function ScanEntries(cfg: ScanConfig, clock: Clock, dir: seq<string>, f: Node, i: nat, st: ScanState): (r: ScanState)
    requires f.Folder? && i <= |f.entries|
    ensures Extends(st, r)
    decreases f, 0, |f.entries| - i
  {
    if i == |f.entries| then AfterFailure(f.failure, dir, st)
    else
      var checked := st.(checks := st.checks + 1);
      match LimitHit(cfg, clock, st)
      case Some(cause) => checked.(warnings := checked.warnings + [ReadFailed(dir, cause)])
      case None => ScanEntries(cfg, clock, dir, f, i + 1, Visit(cfg, clock, dir, f.entries[i], checked))
  }

  /** One entry: a folder is walked only when subfolders are included, a file
      is yielded when its name starts with the prefix, anything else is passed over. */
  function Visit(cfg: ScanConfig, clock: Clock, dir: seq<string>, e: Node, st: ScanState): (r: ScanState)
    ensures Extends(st, r)
    decreases e, 2
  {
    match e
    case Folder(name, _, _) =>
      if cfg.includeSubfolders then ScanFolder(cfg, clock, dir + [name], e, st) else st
    case File(name, stat) =>
      if StartsWithIgnoringCase(name, cfg.prefix) then st.(files := st.files + [ScannedFile(dir, name, stat)]) else st
    case Other(_) => st
  }

  /** The walk from the monitored folder. `os.scandir` on something that is
      not a folder raises an OSError, which is logged. */
  function IterFiles(cfg: ScanConfig, clock: Clock, root: Node): ScanState {
    if root.Folder? then ScanFolder(cfg, clock, [], root, Start)
    else Start.(warnings := [ReadFailed([], OsFailure)])
  }

  /** `scan_dir`: the loop over one folder's listing, recursing into
      subfolders; it computes the walk that ScanFolder specifies. */
  method ScanDir(cfg: ScanConfig, clock: Clock, dir: seq<string>, f: Node, st: ScanState) returns (r: ScanState)
    requires f.Folder?
    ensures r == ScanFolder(cfg, clock, dir, f, st)
    decreases f
  {
    var i := 0;
    var cur := st;
    while i < |f.entries|
      invariant i <= |f.entries|
      invariant ScanEntries(cfg, clock, dir, f, i, cur) == ScanFolder(cfg, clock, dir, f, st)
    {
      var e := f.entries[i];
      var hit := LimitHit(cfg, clock, cur);
      cur := cur.(checks := cur.checks + 1);
      if hit.Some? {
        r := cur.(warnings := cur.warnings + [ReadFailed(dir, hit.value)]);
        return;
      }
      match e {
        case Folder(name, _, _) =>
          if cfg.includeSubfolders {
            cur := ScanDir(cfg, clock, dir + [name], e, cur);
          }
        case File(name, stat) =>
          if StartsWithIgnoringCase(name, cfg.prefix) {
            cur := cur.(files := cur.files + [ScannedFile(dir, name, stat)]);
          }
        case Other(_) =>
      }
      i := i + 1;
    }
    r := AfterFailure(f.failure, dir, cur);
  }

  /** `iter_files_with_limits(folder, prefix)`: the files it yields and the
      warnings it logs. */
  method IterFilesWithLimits(cfg: ScanConfig, clock: Clock, root: Node) returns (files: seq<ScannedFile>, warnings: seq<ScanWarning>)
    ensures files == IterFiles(cfg, clock, root).files
    ensures warnings == IterFiles(cfg, clock, root).warnings
  {
    if root.Folder? {
      var r := ScanDir(cfg, clock, [], root, Start);
      files, warnings := r.files, r.warnings;
    } else {
      files, warnings := [], [ReadFailed([], OsFailure)];
    }
  }

  // ---------------------------------------------------------------------
  // The unbounded walk, as a reference.

  /** Every file the walk would yield with no budgets: the matching files of
      `f`'s entries from the `i`-th on, in listing order, depth first. */
  function Listing(cfg: ScanConfig, dir: seq<string>, f: Node, i: nat): seq<ScannedFile>
    requires f.Folder? && i <= |f.entries|
    decreases f, 0, |f.entries| - i
  {
    if i == |f.entries| then []
    else Candidates(cfg, dir, f.entries[i]) + Listing(cfg, dir, f, i + 1)
  }

  /** The files one entry contributes to the unbounded walk. */
  function Candidates(cfg: ScanConfig, dir: seq<string>, e: Node): seq<ScannedFile>
    decreases e, 1
  {
    match e
    case Folder(name, _, _) => if cfg.includeSubfolders then Listing(cfg, dir + [name], e, 0) else []
    case File(name, stat) => if StartsWithIgnoringCase(name, cfg.prefix) then [ScannedFile(dir, name, stat)] else []
    case Other(_) => []
  }

  predicate IsPrefix<T(==)>(a: seq<T>, b: seq<T>) {
    |a| <= |b| && b[..|a|] == a
  }

  ghost predicate Monotone(clock: Clock) {
    forall j, k :: j <= k ==> clock(j) <= clock(k)
  }

  /** The time budget is off, or the clock never runs backwards. */
  ghost predicate SteadyClock(cfg: ScanConfig, clock: Clock) {
    cfg.maxSeconds == 0 || Monotone(clock)
  }

  /** A budget is spent: the next check raises. */
  predicate Exhausted(cfg: ScanConfig, clock: Clock, st: ScanState) {
    LimitHit(cfg, clock, st).Some?
  }

  predicate IsBudgetWarning(w: ScanWarning) {
    w.ReadFailed? && w.cause != OsFailure
  }

  /** Between `st` and `r` a "Falha ao ler dir" warning for a spent budget was logged. */
  predicate BreachLogged(st: ScanState, r: ScanState)
    requires Extends(st, r)
  {
    exists k :: |st.warnings| <= k < |r.warnings| && IsBudgetWarning(r.warnings[k])
  }

  lemma BreachLoggedTrans(a: ScanState, b: ScanState, c: ScanState)
    requires Extends(a, b) && Extends(b, c) && Extends(a, c)
    requires BreachLogged(a, b) || BreachLogged(b, c)
    ensures BreachLogged(a, c)
  {
    if BreachLogged(a, b) {
      var k :| |a.warnings| <= k < |b.warnings| && IsBudgetWarning(b.warnings[k]);
      assert c.warnings[k] == c.warnings[..|b.warnings|][k];
    } else {
      var k :| |b.warnings| <= k < |c.warnings| && IsBudgetWarning(c.warnings[k]);
    }
  }

  lemma ExtendsTrans(a: ScanState, b: ScanState, c: ScanState)
    requires Extends(a, b) && Extends(b, c)
    ensures Extends(a, c) && NewFiles(a, c) == NewFiles(a, b) + NewFiles(b, c)
  {
    assert c.files[..|a.files|] == c.files[..|b.files|][..|a.files|];
    assert c.files == c.files[..|b.files|] + NewFiles(b, c);
  }

  lemma PrefixOfLonger<T>(p: seq<T>, c1: seq<T>, c2: seq<T>)
    requires IsPrefix(p, c1) && p != c1
    ensures IsPrefix(p, c1 + c2) && p != c1 + c2
  {
    assert (c1 + c2)[..|p|] == c1[..|p|];
  }

  lemma PrefixAfterWhole<T>(c1: seq<T>, p2: seq<T>, c2: seq<T>)
    requires IsPrefix(p2, c2)
    ensures IsPrefix(c1 + p2, c1 + c2)
    ensures c1 + p2 != c1 + c2 ==> p2 != c2
  {
    assert (c1 + c2)[..|c1 + p2|] == c1 + c2[..|p2|];
  }

  /** Once a budget is spent, a folder adds no more files and the budget
      stays spent. */
  lemma ExhaustedStays(cfg: ScanConfig, clock: Clock, dir: seq<string>, f: Node, i: nat, st: ScanState)
    requires f.Folder? && i <= |f.entries| && SteadyClock(cfg, clock)
    requires Exhausted(cfg, clock, st)
    ensures var r := ScanEntries(cfg, clock, dir, f, i, st);
            && r.files == st.files && Exhausted(cfg, clock, r)
            && (i < |f.entries| ==> BreachLogged(st, r))
  {
    var r := ScanEntries(cfg, clock, dir, f, i, st);
    if i < |f.entries| {
      if LimitHit(cfg, clock, st) == Some(TimeLimit) {
        assert clock(st.checks) <= clock(st.checks + 1);
      }
      assert IsBudgetWarning(r.warnings[|st.warnings|]);
    }
  }

  /** The heart of the walk's behaviour under budgets: with a steady clock,
      the files a folder adds are a prefix of the files the unbounded walk
      lists, and they fall short of it only when a budget is spent. */
  lemma {:induction false} ScanIsPrefix(cfg: ScanConfig, clock: Clock, dir: seq<string>, f: Node, i: nat, st: ScanState)
    requires f.Folder? && i <= |f.entries| && SteadyClock(cfg, clock)
    ensures var r := ScanEntries(cfg, clock, dir, f, i, st);
            && Extends(st, r)
            && IsPrefix(NewFiles(st, r), Listing(cfg, dir, f, i))
            && (NewFiles(st, r) != Listing(cfg, dir, f, i) ==> Exhausted(cfg, clock, r) && BreachLogged(st, r))
    decreases f, 0, |f.entries| - i
  {
    if i == |f.entries| {
    } else if LimitHit(cfg, clock, st).Some? {
      ExhaustedStays(cfg, clock, dir, f, i, st);
    } else {
      var e := f.entries[i];
      var checked := st.(checks := st.checks + 1);
      var mid := Visit(cfg, clock, dir, e, checked);
      var r := ScanEntries(cfg, clock, dir, f, i + 1, mid);
      assert r == ScanEntries(cfg, clock, dir, f, i, st);
      var c1, c2 := Candidates(cfg, dir, e), Listing(cfg, dir, f, i + 1);
      assert Listing(cfg, dir, f, i) == c1 + c2;
      VisitIsPrefix(cfg, clock, dir, e, checked);
      assert NewFiles(st, mid) == NewFiles(checked, mid);
      if NewFiles(st, mid) != c1 {
        ExhaustedStays(cfg, clock, dir, f, i + 1, mid);
        ExtendsTrans(st, mid, r);
        assert NewFiles(mid, r) == [];
        PrefixOfLonger(NewFiles(st, mid), c1, c2);
        assert NewFiles(st, r) == NewFiles(st, mid);
        assert BreachLogged(checked, mid);
        assert BreachLogged(st, mid) by {
          var k :| |checked.warnings| <= k < |mid.warnings| && IsBudgetWarning(mid.warnings[k]);
        }
        BreachLoggedTrans(st, mid, r);
      } else {
        ScanIsPrefix(cfg, clock, dir, f, i + 1, mid);
        ExtendsTrans(st, mid, r);
        PrefixAfterWhole(c1, NewFiles(mid, r), c2);
        if NewFiles(st, r) != c1 + c2 {
          BreachLoggedTrans(st, mid, r);
        }
      }
    }
  }

  /** The same for a single entry. */
  lemma {:induction false} VisitIsPrefix(cfg: ScanConfig, clock: Clock, dir: seq<string>, e: Node, st: ScanState)
    requires SteadyClock(cfg, clock)
    ensures var r := Visit(cfg, clock, dir, e, st);
            && Extends(st, r)
            && IsPrefix(NewFiles(st, r), Candidates(cfg, dir, e))
            && (NewFiles(st, r) != Candidates(cfg, dir, e) ==> Exhausted(cfg, clock, r) && BreachLogged(st, r))
    decreases e, 1
  {
    var r := Visit(cfg, clock, dir, e, st);
    match e
    case Folder(name, _, _) =>
      if cfg.includeSubfolders {
        ScanIsPrefix(cfg, clock, dir + [name], e, 0, st);
      }
    case File(name, stat) =>
    case Other(_) =>
  }

  /** Whatever the clock does, a positive file budget is never overrun:
      every file is yielded after a check that found fewer than the budget. */
  lemma {:induction false} ScanWithinFileBudget(cfg: ScanConfig, clock: Clock, dir: seq<string>, f: Node, i: nat, st: ScanState)
    requires f.Folder? && i <= |f.entries|
    requires cfg.maxFiles > 0 && |st.files| <= cfg.maxFiles
    ensures |ScanEntries(cfg, clock, dir, f, i, st).files| <= cfg.maxFiles
    decreases f, 0, |f.entries| - i
  {
    if i < |f.entries| && LimitHit(cfg, clock, st).None? {
      var checked := st.(checks := st.checks + 1);
      VisitWithinFileBudget(cfg, clock, dir, f.entries[i], checked);
      ScanWithinFileBudget(cfg, clock, dir, f, i + 1, Visit(cfg, clock, dir, f.entries[i], checked));
    }
  }

  lemma {:induction false} VisitWithinFileBudget(cfg: ScanConfig, clock: Clock, dir: seq<string>, e: Node, st: ScanState)
    requires cfg.maxFiles > 0 && |st.files| < cfg.maxFiles
    ensures |Visit(cfg, clock, dir, e, st).files| <= cfg.maxFiles
    decreases e, 1
  {
    if e.Folder? && cfg.includeSubfolders {
      ScanWithinFileBudget(cfg, clock, dir + [e.name], e, 0, st);
    }
  }

  /** A yielded file lies at or below the folder being walked, directly in it
      when subfolders are excluded, and its name starts with the prefix. */
  predicate BelongsTo(cfg: ScanConfig, dir: seq<string>, x: ScannedFile) {
    && StartsWithIgnoringCase(x.name, cfg.prefix)
    && IsPrefix(dir, x.dir)
    && (!cfg.includeSubfolders ==> x.dir == dir)
  }

  predicate AllBelongTo(cfg: ScanConfig, dir: seq<string>, xs: seq<ScannedFile>) {
    forall x :: x in xs ==> BelongsTo(cfg, dir, x)
  }

  lemma AllBelongToAppend(cfg: ScanConfig, dir: seq<string>, xs: seq<ScannedFile>, ys: seq<ScannedFile>)
    requires AllBelongTo(cfg, dir, xs) && AllBelongTo(cfg, dir, ys)
    ensures AllBelongTo(cfg, dir, xs + ys)
  {
  }

  lemma PrefixOfPrefix<T>(a: seq<T>, b: seq<T>, c: seq<T>)
    requires IsPrefix(a, b) && IsPrefix(b, c)
    ensures IsPrefix(a, c)
  {
    assert c[..|a|] == c[..|b|][..|a|];
  }

  /** Files found in a subfolder belong to the folder above it too. */
  lemma AllBelongToParent(cfg: ScanConfig, dir: seq<string>, name: string, xs: seq<ScannedFile>)
    requires cfg.includeSubfolders && AllBelongTo(cfg, dir + [name], xs)
    ensures AllBelongTo(cfg, dir, xs)
  {
    forall x | x in xs ensures BelongsTo(cfg, dir, x) {
      assert IsPrefix(dir, dir + [name]);
      PrefixOfPrefix(dir, dir + [name], x.dir);
    }
  }

  lemma {:induction false} ScanYieldsOnlyMatches(cfg: ScanConfig, clock: Clock, dir: seq<string>, f: Node, i: nat, st: ScanState)
    requires f.Folder? && i <= |f.entries|
    ensures var r := ScanEntries(cfg, clock, dir, f, i, st);
            AllBelongTo(cfg, dir, NewFiles(st, r))
    decreases f, 0, |f.entries| - i
  {
    var r := ScanEntries(cfg, clock, dir, f, i, st);
    if i < |f.entries| && LimitHit(cfg, clock, st).None? {
      var checked := st.(checks := st.checks + 1);
      var mid := Visit(cfg, clock, dir, f.entries[i], checked);
      assert r == ScanEntries(cfg, clock, dir, f, i + 1, mid);
      VisitYieldsOnlyMatches(cfg, clock, dir, f.entries[i], checked);
      ScanYieldsOnlyMatches(cfg, clock, dir, f, i + 1, mid);
      ExtendsTrans(st, mid, r);
      assert NewFiles(st, mid) == NewFiles(checked, mid);
      AllBelongToAppend(cfg, dir, NewFiles(st, mid), NewFiles(mid, r));
    } else {
      assert NewFiles(st, r) == [];
    }
  }

  lemma {:induction false} VisitYieldsOnlyMatches(cfg: ScanConfig, clock: Clock, dir: seq<string>, e: Node, st: ScanState)
    ensures var r := Visit(cfg, clock, dir, e, st);
            AllBelongTo(cfg, dir, NewFiles(st, r))
    decreases e, 1
  {
    var r := Visit(cfg, clock, dir, e, st);
    if e.Folder? && cfg.includeSubfolders {
      ScanYieldsOnlyMatches(cfg, clock, dir + [e.name], e, 0, st);
      AllBelongToParent(cfg, dir, e.name, NewFiles(st, r));
    } else if e.File? && StartsWithIgnoringCase(e.name, cfg.prefix) {
      assert NewFiles(st, r) == [ScannedFile(dir, e.name, e.stat)];
    } else {
      assert NewFiles(st, r) == [];
    }
  }

  /** Every file the unbounded walk from the monitored folder would yield. */
  function AllCandidates(cfg: ScanConfig, root: Node): seq<ScannedFile> {
    if root.Folder? then Listing(cfg, [], root, 0) else []
  }

  /** What `iter_files_with_limits` yields, against the unbounded walk: with
      a steady clock it is a prefix of it, every file matches, a positive file
      budget is respected, and a walk that fell short logged the spent budget
      as a warning instead of raising. */
  lemma IterFilesMeaning(cfg: ScanConfig, clock: Clock, root: Node)
    ensures var r := IterFiles(cfg, clock, root);
            && AllBelongTo(cfg, [], r.files)
            && (cfg.maxFiles > 0 ==> |r.files| <= cfg.maxFiles)
            && (SteadyClock(cfg, clock) ==> IsPrefix(r.files, AllCandidates(cfg, root)))
            && (SteadyClock(cfg, clock) && r.files != AllCandidates(cfg, root) ==>
                  exists w :: w in r.warnings && IsBudgetWarning(w))
  {
    if root.Folder? {
      var r := IterFiles(cfg, clock, root);
      assert NewFiles(Start, r) == r.files;
      ScanYieldsOnlyMatches(cfg, clock, [], root, 0, Start);
      if cfg.maxFiles > 0 {
        ScanWithinFileBudget(cfg, clock, [], root, 0, Start);
      }
      if SteadyClock(cfg, clock) {
        ScanIsPrefix(cfg, clock, [], root, 0, Start);
        if r.files != AllCandidates(cfg, root) {
          var k :| 0 <= k < |r.warnings| && IsBudgetWarning(r.warnings[k]);
          assert r.warnings[k] in r.warnings;
        }
      }
    }
  }

  /** With both budgets switched off the walk yields every matching file. */
  lemma NoBudgetsYieldsAll(cfg: ScanConfig, clock: Clock, root: Node)
    requires cfg.maxFiles == 0 && cfg.maxSeconds == 0
    ensures IterFiles(cfg, clock, root).files == AllCandidates(cfg, root)
  {
    if root.Folder? {
      ScanIsPrefix(cfg, clock, [], root, 0, Start);
      assert NewFiles(Start, IterFiles(cfg, clock, root)) == IterFiles(cfg, clock, root).files;
    }
  }

  /** With subfolders excluded only the monitored folder's own files are
      yielded, whatever lies below it. */
  lemma TopLevelOnly(cfg: ScanConfig, clock: Clock, root: Node)
    requires !cfg.includeSubfolders
    ensures forall x :: x in IterFiles(cfg, clock, root).files ==> x.dir == []
  {
    IterFilesMeaning(cfg, clock, root);
  }
}
