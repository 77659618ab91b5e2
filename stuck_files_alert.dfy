/** validacao_pasta_auto_v1.py: the alert about files stuck in
    /flash2005/arquivos/auto. A remote `find` lists the files older than 15
    minutes (at most 20 `\n`-ended lines, through `head -n 20`); when there are any, a
    Teams card is posted, at most once every 15 minutes, which a lock file's
    modification time enforces. The SSH session and the POST are inputs: the
    lines the command printed, and what the POST answered. */
module StuckFilesAlert {
  import opened Text

  /** `LIMITE`: the files listed on the card; the command keeps twice as many `\n`-ended lines. */
  const Limit: nat := 10

  /** `INTERVALO_ALERTA`: 15 minutes between alerts. */
  const AlertInterval: nat := 900

  /** `pode_enviar_alerta` on the lock's state: no lock, or its modification
      moment at least the interval in the past. A lock from the future (a
      clock set back) blocks alerts. */
  predicate CanSend(lock: Option<nat>, now: nat) {
    lock.None? || now as int - lock.value as int >= AlertInterval as int
  }

  /** The stripped, non-empty lines: the names of the stuck files. */
  function StuckFiles(lines: seq<string>): (files: seq<string>)
    ensures |files| <= |lines|
    ensures forall i :: 0 <= i < |files| ==> files[i] != [] && Strip(files[i]) == files[i]
  {
    if lines == [] then []
    else
      var f := Strip(lines[|lines| - 1]);
      StripIsStripped(lines[|lines| - 1]);
      StuckFiles(lines[..|lines| - 1]) + (if f != [] then [f] else [])
  }

  /** Stripping twice changes nothing more. */
  lemma StripIsStripped(s: string)
    ensures Strip(Strip(s)) == Strip(s)
  {
    var r := Strip(s);
    if r != [] {
      assert !IsSpace(r[0]) && !IsSpace(r[|r| - 1]);
    }
  }

  /** A line counts exactly when it holds a non-space character. */
  lemma {:induction false} StuckFilesCount(lines: seq<string>)
    ensures |StuckFiles(lines)| == |BlankFree(lines)|
  {
    if lines != [] {
      StuckFilesCount(lines[..|lines| - 1]);
      NonBlankStripsToSomething(lines[|lines| - 1]);
    }
  }

  predicate IsBlank(s: string) {
    forall i :: 0 <= i < |s| ==> IsSpace(s[i])
  }

  /** The lines that are not blank. */
  function BlankFree(lines: seq<string>): seq<string> {
    if lines == [] then []
    else BlankFree(lines[..|lines| - 1]) + (if IsBlank(lines[|lines| - 1]) then [] else [lines[|lines| - 1]])
  }

  lemma {:induction false} NonBlankStripsToSomething(s: string)
    ensures Strip(s) == [] <==> IsBlank(s)
    decreases |s|
  {
    if s != [] {
      if IsSpace(s[0]) {
        NonBlankStripsToSomething(s[1..]);
        assert IsBlank(s) <==> IsBlank(s[1..]) by {
          if IsBlank(s[1..]) {
            forall i | 0 <= i < |s| ensures IsSpace(s[i]) {
              if i > 0 { assert s[i] == s[1..][i - 1]; }
            }
          }
        }
      } else {
        assert !IsBlank(s);
        if IsSpace(s[|s| - 1]) {
          NonBlankStripsToSomething(s[..|s| - 1]);
          assert !IsBlank(s[..|s| - 1]) by {
            assert s[..|s| - 1][0] == s[0];
          }
        }
      }
    }
  }

  /** The card's severity: "CRÍTICO" (Attention style) from 1000 files,
      "ALERTA" (Warning) from 300, "ATENÇÃO" (Good) below. */
  datatype Severity = Critico | Alerta | Atencao

  function SeverityOf(total: nat): Severity {
    if total >= 1000 then Critico else if total >= 300 then Alerta else Atencao
  }

  function Rank(s: Severity): nat {
    match s
    case Atencao => 0
    case Alerta => 1
    case Critico => 2
  }

  /** More stuck files never lower the severity. */
  lemma SeverityGrows(t1: nat, t2: nat)
    requires t1 <= t2
    ensures Rank(SeverityOf(t1)) <= Rank(SeverityOf(t2))
  {
  }

  /** The card: its severity, the total, the first ten names, and the
      "E mais N arquivo(s)..." block when there are more. */
  datatype Alert = Alert(severity: Severity, total: nat, listed: seq<string>, more: Option<nat>)

  function AlertFor(files: seq<string>): Alert {
    var total := |files|;
    Alert(SeverityOf(total), total,
          if total <= Limit then files else files[..Limit],
          if total > Limit then Some(total - Limit) else None)
  }

  /** The card lists the first `min(10, total)` names, in order, and the
      "E mais" block accounts for exactly the rest. */
  lemma AlertListsTheFirst(files: seq<string>)
    ensures var a := AlertFor(files);
            && |a.listed| == (if a.total < Limit then a.total else Limit)
            && a.listed == files[..|a.listed|]
            && (a.more.Some? <==> a.total > |a.listed|)
            && (a.more.Some? ==> |a.listed| + a.more.value == a.total && a.more.value >= 1)
  {
  }

  /** `arquivo{'s' if n != 1 else ''}`. */
  function FileWord(n: nat): (w: string)
    ensures |w| == 7 || |w| == 8
  {
    "arquivo" + (if n != 1 then "s" else "")
  }

  /** Only exactly one file is named in the singular. */
  lemma FileWordSingular(n: nat)
    ensures FileWord(n) == "arquivo" <==> n == 1
  {
    if n != 1 {
      assert |FileWord(n)| == 8;
    }
  }

  /** When the command's output splits into at most twice `LIMITE` lines,
      at most 20 files are counted: the card then says neither "CRÍTICO" nor
      "ALERTA", and the "E mais" block never exceeds 10. `head -n 20` counts
      only `\n`, while `splitlines()` also breaks at `\r` and other line
      separators that a file name may hold, so the output can split into more
      lines than that. */
  lemma CappedOutputCapsSeverity(lines: seq<string>)
    requires |lines| <= 2 * Limit
    ensures var a := AlertFor(StuckFiles(lines));
            && a.severity == Atencao
            && (a.more.Some? ==> a.more.value <= Limit)
  {
  }

  /** What posting the card gave: a status code, or an exception. */
  datatype PostResult = Answered(status: nat) | PostRaised

  /** How a run ends. */
  datatype RunOutcome =
    | AllClear                                    // nothing stuck: the lock is removed
    | Debounced                                   // stuck files, but an alert went out recently
    | AlertPosted(alert: Alert, delivered: bool)  // the card was posted; delivered on 202

  /** One run of the script from lock state `lock`: the lock afterwards and the
      outcome. `now` is when the lock is checked and `postedAt` when it is
      rewritten after a delivered post. */
  function Step(lock: Option<nat>, lines: seq<string>, now: nat, post: PostResult, postedAt: nat): (Option<nat>, RunOutcome) {
    var files := StuckFiles(lines);
    if |files| == 0 then (None, AllClear)
    else if !CanSend(lock, now) then (lock, Debounced)
    else
      var delivered := post == Answered(202);
      (if delivered then Some(postedAt) else lock, AlertPosted(AlertFor(files), delivered))
  }

  /** The lock only changes on an all-clear (removed) or a delivered alert
      (rewritten); a debounced run, a refused post and a failed post leave it. */
  lemma LockChangesOnlyOnClearOrDelivery(lock: Option<nat>, lines: seq<string>, now: nat, post: PostResult, postedAt: nat)
    ensures var (after, o) := Step(lock, lines, now, post, postedAt);
            && (o == AllClear <==> StuckFiles(lines) == [])
            && (o == AllClear ==> after.None?)
            && (o == Debounced ==> after == lock && !CanSend(lock, now))
            && (o.AlertPosted? ==> CanSend(lock, now) && (o.delivered <==> post == Answered(202)))
            && (o.AlertPosted? && o.delivered ==> after == Some(postedAt))
            && (o.AlertPosted? && !o.delivered ==> after == lock)
  {
  }

  /** Debounce: after a delivered alert, the next run can post again only
      once the interval has passed since the lock was written. */
  lemma AlertsAreSpaced(lock: Option<nat>, lines1: seq<string>, now1: nat, post1: PostResult, postedAt1: nat,
                        lines2: seq<string>, now2: nat, post2: PostResult, postedAt2: nat)
    requires Step(lock, lines1, now1, post1, postedAt1).1 == AlertPosted(AlertFor(StuckFiles(lines1)), true)
    requires Step(Step(lock, lines1, now1, post1, postedAt1).0, lines2, now2, post2, postedAt2).1.AlertPosted?
    ensures now2 >= postedAt1 + AlertInterval
  {
  }

  /** The lock file: present with a modification moment, or absent. */
  class AlertLock {
    var mtime: Option<nat>

    constructor(mtime0: Option<nat>)
      ensures mtime == mtime0
    {
      mtime := mtime0;
    }

    /** `pode_enviar_alerta()`. */
    function PodeEnviarAlerta(now: nat): (ok: bool)
      reads this
      ensures ok <==> mtime.None? || now >= mtime.value + AlertInterval
    {
      CanSend(mtime, now)
    }

    /** `registrar_envio()`: the lock is (re)written at `t`. */
    method RegistrarEnvio(t: nat)
      modifies this
      ensures mtime == Some(t)
    {
      mtime := Some(t);
    }

    /** `limpar_lock()`: the lock is removed if present. */
    method LimparLock()
      modifies this
      ensures mtime.None?
    {
      mtime := None;
    }

    /** The script's top level, from the command's lines on. */
    method Run(lines: seq<string>, now: nat, post: PostResult, postedAt: nat) returns (outcome: RunOutcome)
      modifies this
      ensures (mtime, outcome) == Step(old(mtime), lines, now, post, postedAt)
    {
      var files := StuckFiles(lines);
      var total := |files|;
      if total == 0 {
        LimparLock();
        return AllClear;
      }
      if !PodeEnviarAlerta(now) {
        return Debounced;
      }
      var alert := AlertFor(files);
      if post == Answered(202) {
        RegistrarEnvio(postedAt);
        return AlertPosted(alert, true);
      }
      return AlertPosted(alert, false);
    }
  }
}
