# Folder and file monitors, modelled in Dafny

This project models five small Python monitoring scripts. Each script checks
that files arrived, or did not pile up, and reports the result on a Teams
card.

- **Processo_3.py** checks that the Santander return file `EX` + `DDMMYY` reached
  the shared folder `\\172.20.1.43\C\SANTANDER\retorno\BKP` close to its
  expected time.
  - It picks the latest run slot (07:40, 11:40, 15:40, 19:40) at or before
    now, and expects the file 9 minutes before that slot.
  - It pings the share's host.
  - It walks the folder under a file budget and a time budget. Each listing
    error is isolated to its own directory.
  - It sorts the files it saw into "found" and "out of window".
  - It succeeds exactly when something was found.
- **Processo_1.py** reads an FTP `LIST` listing. It picks the newest
  `YYYY-MM-DD_TrackingRecord.xlsx` and quotes its date as `DD/MM/YYYY`.
- **Processo_2.py** lists the SFTP folders it monitors, one result per folder.
  - A folder that cannot be read counts as an error; the others count as
    empty or as holding files.
  - It derives an overall status from those counts.
- **validacao_pasta_auto_v1.py** counts the files that are stuck in a folder and
  posts an alert.
  - The alert has a severity, and lists only the first ten files.
  - A lock file spaces alerts at least 15 minutes apart. A delivered post
    renews the lock, and a clean run removes it.
- **Processo_6.py** picks the newest fresh `.xlsx` download and sums column E
  over the delivered `.fpl` rows.

Time is a whole number of seconds since 0001-01-01 00:00, on the local
clock. The calendar (`Calendar`) is the proleptic Gregorian one of Python's
`date`, with a proved round trip between dates and day numbers.

Everything outside the programs is an input to the model:

- directory trees, listings and spreadsheets;
- the ping's answer and the answer to a webhook post;
- the moment "now" and the clock the scan reads;
- whether the scan thread timed out.

## Model

| member | source | states |
|---|---|---|
| RunSchedule.ParseFormatRoundTrip | Processo_3.py:122-125 | every minute of the day written as HH:MM parses back to itself |
| RunSchedule.ParseFiveChars | Processo_3.py:122-125 | a DD:DD string gives hour*60+minute when hour ≤ 23 and minute ≤ 59, otherwise the ValueError (None) |
| RunSchedule.ParseAllMeaning | Processo_3.py:133-134 | the slots parse as a whole exactly when each slot parses, and each parsed value is that slot's |
| RunSchedule.PreviousRunSchedule | Processo_3.py:127-145 | a chosen run is never after now, and the expected moment is the run minus the lag |
| RunSchedule.ChosenRunIsLatest | Processo_3.py:133-142 | the run is a scheduled moment, and no scheduled moment of any day that is at or before now comes after it |
| RunSchedule.RunIsLatestScheduledMoment | Processo_3.py:127-145 | the same for the whole computation from the slot strings |
| RunSchedule.ChosenRunUnique | Processo_3.py:135-142 | any latest scheduled moment at or before now, on today or yesterday, is the one chosen |
| RunSchedule.ScheduleIsTotal | Processo_3.py:137-142 | a non-empty, well-formed schedule always yields a window (away from the start of the calendar) |
| RunSchedule.EmptyScheduleFails | Processo_3.py:141-142 | an empty schedule fails (the IndexError of `sorted([])[-1]`) |
| RunSchedule.ChosenToday | Processo_3.py:135-138 | with ascending slots, the last of today's slots that has passed is chosen |
| RunSchedule.ChosenYesterday | Processo_3.py:139-142 | before today's first slot, yesterday's last slot is chosen |
| RunSchedule.ConfiguredSlots | Processo_3.py:48 | the four configured slots are minutes 460, 700, 940 and 1180 |
| RunSchedule.AfternoonExample | Processo_3.py:48-49 | at 15:45 the run is 15:40 and the file is expected at 15:31 |
| RunSchedule.EarlyMorningExample | Processo_3.py:139-144 | at 03:00 the run is yesterday's 19:40 and the file is expected at 19:31 |
| RunSchedule.LagCrossesMidnight | Processo_3.py:144 | subtracting the lag may cross midnight without error (00:05 minus 9 minutes is 23:56 of the day before) |
| MatchRules.WindowInWholeSeconds | Processo_3.py:147-151 | the window test holds iff expected − window/2 ≤ mtime ≤ expected + window/2, both edges included |
| MatchRules.ConfiguredWindowEdges | Processo_3.py:44 | with 600 s, the edges are 300 s away on each side: 300 s is inside and 301 s is outside |
| MatchRules.TodayToken | Processo_3.py:153-157 | the token is six digits |
| MatchRules.TokenDecodes | Processo_3.py:155 | the token reads back as the day, the month and the year modulo 100 of the expected date |
| MatchRules.TokenIdentifiesDay | Processo_3.py:155 | two moments share a token iff their day, month and two-digit year agree |
| MatchRules.NameTestMeaning | Processo_3.py:159-171 | a name passes iff it starts with the prefix, ignoring case, and then with the six token digits |
| MatchRules.NameExampleMatches | Processo_3.py:161-166 | on 6 November 2025 the name "ex061125.csv" passes |
| MatchRules.NameExampleRejects | Processo_3.py:161-166 | on 6 November 2025 the name "EX070125.csv" does not pass |
| MatchRules.ExtractHostFromUnc | Processo_3.py:173-184 | a host holds no slash of either kind |
| MatchRules.HostNeedsTwoSeparators | Processo_3.py:175-184 | there is a host iff the path starts with two separators, `/` or `\` |
| MatchRules.HostIsFirstComponent | Processo_3.py:178-183 | the host is the text after the two leading separators, up to the next separator or the end |
| MatchRules.HostOf | Processo_3.py:178-183 | `\\` + h + a rest that starts with `\` (or is empty) gives host h |
| MatchRules.ConfiguredHost | Processo_3.py:37 | the configured share is pinged at 172.20.1.43 |
| MatchRules.DegenerateHosts | Processo_3.py:175-184 | a bare `\\` gives the empty host, and a drive path gives no host |
| FolderScan.LimitHit | Processo_3.py:217-222 | no breach means each enabled budget still holds; a file-limit breach means the limit was reached |
| FolderScan.ScanDir | Processo_3.py:224-250 | the loop over one directory's entries computes the reference walk of that directory |
| FolderScan.IterFilesWithLimits | Processo_3.py:212-252 | the files yielded and the warnings logged are those of the reference walk from the root |
| FolderScan.ExhaustedStays | Processo_3.py:219-229 | once a budget is spent (and the clock does not go back) no further entry yields anything, and each entry left logs a breach |
| FolderScan.ScanIsPrefix | Processo_3.py:226-250 | one directory's output is a prefix of its unbounded listing; when it is shorter, a budget was spent and a breach was logged |
| FolderScan.VisitIsPrefix | Processo_3.py:229-244 | the same for one entry, whether file, folder or other |
| FolderScan.ScanWithinFileBudget | Processo_3.py:221-238 | with a file limit, a directory never takes the count of yielded files past it |
| FolderScan.VisitWithinFileBudget | Processo_3.py:221-238 | the same for one entry |
| FolderScan.ScanYieldsOnlyMatches | Processo_3.py:231-244 | a directory yields only regular files whose names start with the prefix, ignoring case, from itself or (only when subfolders are on) from below |
| FolderScan.VisitYieldsOnlyMatches | Processo_3.py:231-244 | the same for one entry |
| FolderScan.IterFilesMeaning | Processo_3.py:212-252 | the walk yields only prefixed regular files; at most max_files of them when that limit is on; a prefix of the unbounded walk; cut short only with a budget warning logged |
| FolderScan.NoBudgetsYieldsAll | Processo_3.py:219-222 | with both budgets off, the walk yields exactly the unbounded walk |
| FolderScan.TopLevelOnly | Processo_3.py:231-234 | without subfolders, only files directly in the root are yielded |
| ReturnFileCheck.Classify | Processo_3.py:269-287 | a file whose stat fails is skipped, and only "both" mode sets files aside as out of window |
| ReturnFileCheck.BothModeMeaning | Processo_3.py:274-281 | in "both" mode, found iff name and time pass; out of window iff the name passes and the time does not |
| ReturnFileCheck.SelectMeaning | Processo_3.py:277-287 | a bucket holds exactly the yielded files given that verdict |
| ReturnFileCheck.SelectAppend | Processo_3.py:266-287 | buckets are filled in scan order: the bucket of a concatenation is the concatenation of the buckets |
| ReturnFileCheck.SelectDisjoint | Processo_3.py:277-281 | no file is both found and kept aside, and the two buckets together hold no more files than were yielded |
| ReturnFileCheck.ModesThatKeepNothingAside | Processo_3.py:282-287 | only "both" fills the out-of-window bucket, and an unknown mode finds nothing |
| ReturnFileCheck.FindMatches | Processo_3.py:254-295 | a missing folder raises before any scan; otherwise the buckets are those of the files the limited walk yields |
| ReturnFileCheck.FoundAreFirstOfAll | Processo_3.py:266-287 | the files found are a prefix of the files an unbounded scan would find, and all of them when no budget is on |
| ReturnFileCheck.Executar | Processo_3.py:385-558 | the run's outcome is the one the window, the ping, the external timeout and the scan determine, and it returns True iff files were found |
| ReturnFileCheck.SuccessMeansFileFound | Processo_3.py:396-495 | success iff the window is computed, the host answers (or there is no host), the scan did not time out, the folder exists and some yielded file is found |
| ReturnFileCheck.SuccessReport | Processo_3.py:466-495 | a success reports the chosen run (never after now), at least one file, and the newest ≤ 5 found files, newest first |
| ReturnFileCheck.BudgetBreachIsNotAnError | Processo_3.py:436-526 | a scan cut short by its own budgets still ends as found or not received, never as an error |
| ReturnFileCheck.NotReceivedReport | Processo_3.py:497-526 | "not received" means no yielded file was found, and it lists the newest ≤ 5 out-of-window files ("both" mode only) |
| ReturnFileCheck.ConfiguredShareUnreachable | Processo_3.py:417-433 | with the configured share and no ping reply, the run ends as host unreachable at 172.20.1.43 |
| ReturnFileCheck.NoHostNoPing | Processo_3.py:417-418 | a path without a host, or with an empty one, is never pinged |
| NewestFirst.SortIsOrdered | Processo_3.py:467 | sorting by modification time, reversed, gives a newest-first list |
| NewestFirst.SortIsPermutation | Processo_3.py:467 | the sort keeps every file exactly as often as before |
| NewestFirst.SortIsStable | Processo_3.py:467 | files with the same modification time keep their scan order |
| NewestFirst.ShownAreTheNewest | Processo_3.py:476 | the first five shown are newest first, drawn from the list, min(5, n) of them, and no file left out is newer than one shown |
| TrackingRecord.SplitJoinRoundTrip | Processo_1.py:70-72 | splitting words joined by single spaces gives back the words |
| TrackingRecord.NameAfterEightFields | Processo_1.py:70-72 | a line of eight fields followed by name words yields the name words joined by spaces |
| TrackingRecord.NameOfLine | Processo_1.py:70-72 | a name is read only from a line with at least nine fields |
| TrackingRecord.TrackingNameMeaning | Processo_1.py:74-77 | the three tests reduce to: the name starts with `dddd-dd-dd_TrackingRecord.xlsx` and ends with `.xlsx` |
| TrackingRecord.KeptMeaning | Processo_1.py:68-79 | the kept names are exactly the tracking names read from some listing line |
| TrackingRecord.KeyOrderIsNameOrder | Processo_1.py:86-87 | ordering the (date, name) pairs is ordering the names |
| TrackingRecord.NewestIsGreatest | Processo_1.py:81-87 | there is no pick iff nothing was kept; the pick is a kept name and no kept name is greater |
| TrackingRecord.NewestIgnoresOrder | Processo_1.py:86-87 | the pick does not depend on the order (or repetition) of the listing lines |
| TrackingRecord.BuscarArquivoMaisRecente | Processo_1.py:60-94 | a failed listing gives None; otherwise the loops compute the newest kept name |
| TrackingRecord.ExtrairDataArquivo | Processo_1.py:111-119 | the only failure is a matching name whose date is not a calendar date |
| TrackingRecord.QuotedDateRearrangesName | Processo_1.py:113-118 | a matching name with a real date is quoted as its DD, MM and YYYY characters, in that order |
| TrackingRecord.OtherNamesQuoteToday | Processo_1.py:119 | any other name quotes today's date |
| SftpMonitor.DetailOfOne | Processo_2.py:116-135 | an entry is left out iff its stat says directory, and an entry whose stat fails is listed with N/A details |
| SftpMonitor.DetailsAppend | Processo_2.py:113-135 | the details keep listing order: those of a concatenation are the concatenation |
| SftpMonitor.DetailsNames | Processo_2.py:114-135 | a name is in the details iff the folder lists it and it is not a directory |
| SftpMonitor.ListarArquivosPasta | Processo_2.py:107-141 | None iff the folder cannot be listed (distinct from an empty folder); otherwise the details of its entries |
| SftpMonitor.Classify | Processo_2.py:203-214 | a folder holding files holds at least one |
| SftpMonitor.CountersMeaning | Processo_2.py:192-214 | errors > 0 iff some folder was unreadable; total > 0 iff some folder holds files; otherwise every folder is counted empty |
| SftpMonitor.Summarize | Processo_2.py:192-214 | the counting loop computes the counters |
| SftpMonitor.OverallMeaning | Processo_2.py:222-230 | attention iff some folder is unreadable, files detected iff none is and some holds files, all good iff every folder was read and is empty |
| SftpMonitor.LabelIsLastComponent | Processo_2.py:201 | the label is what follows the path's last `/`, or the whole path |
| SftpMonitor.Executar | Processo_2.py:310-358 | without a connection it fails with no report; otherwise one result per folder in the configured order, with counters and status, and True |
| StuckFilesAlert.StuckFiles | validacao_pasta_auto_v1.py:74 | the files are stripped, non-empty lines |
| StuckFilesAlert.StripIsStripped | validacao_pasta_auto_v1.py:74 | stripping twice changes nothing more |
| StuckFilesAlert.NonBlankStripsToSomething | validacao_pasta_auto_v1.py:74 | a line strips to nothing iff it is all whitespace |
| StuckFilesAlert.StuckFilesCount | validacao_pasta_auto_v1.py:74-75 | the total is the number of lines that are not all whitespace |
| StuckFilesAlert.SeverityGrows | validacao_pasta_auto_v1.py:90-101 | more stuck files never lower the severity |
| StuckFilesAlert.CappedOutputCapsSeverity | validacao_pasta_auto_v1.py:64-101 | when the output splits into at most 20 lines, the severity is ATENÇÃO and at most ten more files are announced |
| StuckFilesAlert.AlertListsTheFirst | validacao_pasta_auto_v1.py:215-221 | the card lists the first min(total, 10) files, and "E mais N" appears iff the total exceeds them, with N the rest |
| StuckFilesAlert.FileWordSingular | validacao_pasta_auto_v1.py:177 | the word is singular iff the count is 1 |
| StuckFilesAlert.LockChangesOnlyOnClearOrDelivery | validacao_pasta_auto_v1.py:79-233 | nothing stuck clears the lock; a debounced run changes nothing; a post is attempted only when allowed, and renews the lock iff it was answered 202 |
| StuckFilesAlert.AlertsAreSpaced | validacao_pasta_auto_v1.py:29-34 | after a delivered alert, the next alert comes at least 900 s after the lock was written |
| StuckFilesAlert.AlertLock.PodeEnviarAlerta | validacao_pasta_auto_v1.py:31-34 | allowed iff there is no lock or at least 900 s passed since its modification |
| StuckFilesAlert.AlertLock.RegistrarEnvio | validacao_pasta_auto_v1.py:36-37 | the lock now carries the given moment |
| StuckFilesAlert.AlertLock.LimparLock | validacao_pasta_auto_v1.py:39-41 | there is no lock afterwards |
| StuckFilesAlert.AlertLock.Run | validacao_pasta_auto_v1.py:73-238 | the run's outcome and the lock afterwards are those of one step of the alert machine |
| GaExtraction.Candidates | Processo_6.py:169-170 | a download is a candidate iff it is listed with an `.xlsx` name not starting with `~` |
| GaExtraction.CandidatesAppend | Processo_6.py:169-170 | the candidates keep listing order: those of a joined listing are those of each part, in turn |
| GaExtraction.FreshMeaning | Processo_6.py:179-185 | the fresh files are exactly the candidates modified after the run began and less than 30 s before now |
| GaExtraction.NewestIsFirstMaximum | Processo_6.py:192-195 | the pick is as new as every fresh file and strictly newer than those before it (the first of equals) |
| GaExtraction.RecentDownload | Processo_6.py:165-202 | a pick is always a candidate name |
| GaExtraction.RecentDownloadMeaning | Processo_6.py:169-195 | nothing is picked iff no candidate is fresh; otherwise the pick is a fresh candidate with no fresher one |
| GaExtraction.Automation.ObterArquivoRecente | Processo_6.py:165-202 | the loop over the candidates computes the pick |
| GaExtraction.TotalAppend | Processo_6.py:234 | the total is additive over blocks of rows |
| GaExtraction.UncountedRowsAddNothing | Processo_6.py:230-234 | rows that fail the filter add nothing |
| GaExtraction.DotIsAnyCharacter | Processo_6.py:231-232 | in the pattern ".fpl" the dot matches any character but a newline, so "XFPL" counts |
| GaExtraction.Process | Processo_6.py:204-255 | a result names the file that was picked |
| GaExtraction.Automation.ProcessarArquivoExcel | Processo_6.py:204-255 | the result is the pick's total (0 with fewer than 7 columns), and the file is recorded as processed iff there is a result |
| GaExtraction.Automation.Executar | Processo_6.py:423-449 | True iff the browser steps succeeded and the spreadsheet gave a result; the picked file is appended to the processed list iff True |
| GaExtraction.SuccessNeedsFreshDownload | Processo_6.py:204-210 | a result needs a fresh `.xlsx` candidate in the download folder |

The documented behaviour and the code disagree about budget breaches. The
documentation says a breach of the scan's file or time budget ends the check
as "scan timed out". In the code, `check_limits` raises `TimeoutError`
(Processo_3.py:220-222). In Python, `TimeoutError` is a subclass of
`OSError`. So the `except OSError` inside `scan_dir` (Processo_3.py:249-250)
catches it. The breach is logged as "Falha ao ler dir", and that directory's
listing stops. The walk then goes on with the enclosing directory, whose next
budget check fails again. The `except TimeoutError` branch at
Processo_3.py:528 is never reached from the scan. The model follows the code:

- `FolderScan.IterFilesMeaning` proves that the yielded files are a prefix of
  the unbounded walk, with a budget warning logged.
- `ReturnFileCheck.BudgetBreachIsNotAnError` proves that such a run ends as
  found or not received.

## Left out

**Outside the programs**

- Networking is left out: FTP, SFTP, SSH, the `ping` subprocess, Selenium,
  Outlook COM and the webhook posts. Their results are inputs: a listing or
  None, a boolean ping answer, the browser steps' success, and the HTTP status
  or exception of a post.
- The `run_with_timeout` thread is concurrency. It appears only as the input
  "the scan thread was still alive after scan_max_seconds + 10 seconds".
- The wall clock is not read. "Now" and the scan clock are parameters. The
  scan clock gives the elapsed time at each budget check, so the model covers
  every timing.
- Floating point is left out: modification times and elapsed seconds are
  whole seconds. The window test keeps the source's exact halving of the
  window, so an odd window has half-second edges.
- Library and setup code is left out:
  - the pandas float sum (column E is an integer column here);
  - KB rounding;
  - the text of the logs, the console and the cards;
  - the Adaptive Card JSON;
  - `.env` loading and environment checks;
  - `exit` codes;
  - deleting the spreadsheet after processing.

**Simplifications**

- Time zone and daylight-saving changes are left out. Moments are naive local
  times.
- A negative `minutes_lag` is left out, because the lag is a natural number.
- The lag is configured as 9, so going past the end of the calendar cannot
  happen.
- Text is ASCII only:
  - `str.upper`, `str.split`, `str.strip` and the regular expressions' `\d`
    are modelled on ASCII characters, the only ones in these names;
  - `splitlines` on the remote command's output is taken as given: the model
    receives the lines.
- RunSchedule.ParseHHMM: reads only fields of ASCII digits. Python's `int()`
  also accepts surrounding blanks, a leading sign, `_` between digits and
  non-ASCII digits, so `" 7:40"`, `"+7:40"` or `"0_7:40"` give a moment in
  the source and None here. The configured slots use none of these forms.
- StuckFilesAlert.CappedOutputCapsSeverity: holds only when the output
  splits into at most 20 lines. `head -n 20` counts only `\n`, but
  `splitlines()` also breaks at `\r`, `\x0b`, `\x0c`, `\x1c`-`\x1e`,
  `\x85`, `\u2028` and `\u2029`. A file name holding these can push the
  count past 20, up to CRÍTICO.
- A file is assumed not to change or disappear between the walk and its
  re-stat. This covers the re-stat in `find_matches`, the sort key of
  `executar` and the `p.stat()` of each file shown on the card
  (Processo_3.py:476-481 and 507-512). A file gone by then makes the source
  end with "Erro na verificação" (False); the model reports it as found or
  not received.
- ReturnFileCheck.Executar: `folder.exists()` (Processo_3.py:258) is
  modelled as a yes or no answer. On the share it can itself raise an
  `OSError`. One with errno ETIMEDOUT is a `TimeoutError`, which reaches the
  handler at Processo_3.py:528 ("Varredura interrompida por tempo limite");
  the model has no such outcome.
- In Processo_6.py, the `max` step reads the modification times again. They
  are assumed to be the ones read in the loop.
- In Processo_1.py, `sort(reverse=True)` then `[0]` is modelled as picking the
  greatest (date, name) pair. Both give the same name.
- Python's Timsort is modelled as a stable insertion sort, with the same
  result: sorted, a permutation, stable.
- The lock file's content (the time of writing) is not modelled. Only its
  presence and its modification moment matter to the source.
- StuckFilesAlert.AlertsAreSpaced: assumes the lock file's `stat`, write and
  `unlink` all succeed. In the source, the write in `registrar_envio()` runs
  inside the `try` of the post (validacao_pasta_auto_v1.py:229-238). If it
  raises after a 202, the card was delivered but the lock keeps its old
  state, so the next run may post again within 900 s. The `stat` and
  `unlink` (validacao_pasta_auto_v1.py:34 and 41) sit outside any `try`, so
  their failure ends the script. The model's `Step` always renews the lock
  on a 202 and never fails on the lock file.
- TrackingRecord.FormatDayMonthYear: covers the years 1..9999 only, and
  always writes the year as four digits. Some platforms' `strftime` write a
  year below 1000 with fewer digits.
- `ScanState.checks` counts budget checks so that the clock can be indexed.
  The progress log every 500 files is left out.
