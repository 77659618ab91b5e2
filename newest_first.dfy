/** The ordering of the report (Processo_3.py, `executar`): the found files,
    or the files seen outside the window, are sorted by modification time,
    newest first (`sort(key=mtime, reverse=True)`, which keeps files with equal
    times in their original order), and the first five are listed. */
module NewestFirst {
  import opened Text
  import opened FolderScan

  /** The sort key. Files reach the sort only after a successful `stat()`;
      one without a stat would sort as the oldest. */
  function MtimeOf(x: ScannedFile): nat {
    if x.stat.Some? then x.stat.value.mtime else 0
  }

  predicate IsNewestFirst(xs: seq<ScannedFile>) {
    forall i, j :: 0 <= i < j < |xs| ==> MtimeOf(xs[i]) >= MtimeOf(xs[j])
  }

  predicate AllAtMost(xs: seq<ScannedFile>, bound: nat) {
    forall k :: 0 <= k < |xs| ==> MtimeOf(xs[k]) <= bound
  }

  /** Places `x` after every file at least as new as it. */
  function Insert(x: ScannedFile, xs: seq<ScannedFile>): (r: seq<ScannedFile>)
    ensures |r| == |xs| + 1
  {
    if xs == [] then [x]
    else if MtimeOf(xs[0]) >= MtimeOf(x) then [xs[0]] + Insert(x, xs[1..])
    else [x] + xs
  }

  lemma {:induction false} InsertPermutes(x: ScannedFile, xs: seq<ScannedFile>)
    ensures multiset(Insert(x, xs)) == multiset(xs) + multiset{x}
  {
    if xs != [] {
      assert xs == [xs[0]] + xs[1..];
      if MtimeOf(xs[0]) >= MtimeOf(x) {
        InsertPermutes(x, xs[1..]);
      }
    }
  }

  lemma {:induction false} InsertAtMost(x: ScannedFile, xs: seq<ScannedFile>, bound: nat)
    requires AllAtMost(xs, bound) && MtimeOf(x) <= bound
    ensures AllAtMost(Insert(x, xs), bound)
  {
    if xs != [] && MtimeOf(xs[0]) >= MtimeOf(x) {
      InsertAtMost(x, xs[1..], bound);
      var r := Insert(x, xs);
      assert forall k :: 1 <= k < |r| ==> r[k] == Insert(x, xs[1..])[k - 1];
    }
  }

  lemma ConsNewestFirst(h: ScannedFile, rest: seq<ScannedFile>)
    requires IsNewestFirst(rest) && AllAtMost(rest, MtimeOf(h))
    ensures IsNewestFirst([h] + rest)
  {
    var r := [h] + rest;
    forall i, j | 0 <= i < j < |r| ensures MtimeOf(r[i]) >= MtimeOf(r[j]) {
      assert r[j] == rest[j - 1];
      if i > 0 {
        assert r[i] == rest[i - 1];
      }
    }
  }

  /** Below the head of an ordered sequence the rest is ordered and no newer. */
  lemma TailNewestFirst(xs: seq<ScannedFile>)
    requires IsNewestFirst(xs) && xs != []
    ensures IsNewestFirst(xs[1..]) && AllAtMost(xs[1..], MtimeOf(xs[0]))
  {
    var tail := xs[1..];
    forall i, j | 0 <= i < j < |tail| ensures MtimeOf(tail[i]) >= MtimeOf(tail[j]) {
      assert tail[i] == xs[i + 1] && tail[j] == xs[j + 1];
    }
    forall k | 0 <= k < |tail| ensures MtimeOf(tail[k]) <= MtimeOf(xs[0]) {
      assert tail[k] == xs[k + 1];
    }
  }

  lemma {:induction false} InsertKeepsOrder(x: ScannedFile, xs: seq<ScannedFile>)
    requires IsNewestFirst(xs)
    ensures IsNewestFirst(Insert(x, xs))
  {
    if xs == [] {
    } else if MtimeOf(xs[0]) >= MtimeOf(x) {
      var tail := xs[1..];
      TailNewestFirst(xs);
      InsertKeepsOrder(x, tail);
      InsertAtMost(x, tail, MtimeOf(xs[0]));
      ConsNewestFirst(xs[0], Insert(x, tail));
    } else {
      assert AllAtMost(xs, MtimeOf(x));
      ConsNewestFirst(x, xs);
    }
  }

  /** The report's order: a stable sort by modification time, newest first. */
  function SortNewestFirst(xs: seq<ScannedFile>): (r: seq<ScannedFile>)
    ensures |r| == |xs|
    decreases |xs|
  {
    if xs == [] then []
    else Insert(xs[|xs| - 1], SortNewestFirst(xs[..|xs| - 1]))
  }

  /** The sort puts the newest file first and every file after one at least
      as new... */
  lemma {:induction false} SortIsOrdered(xs: seq<ScannedFile>)
    ensures IsNewestFirst(SortNewestFirst(xs))
    decreases |xs|
  {
    if xs != [] {
      SortIsOrdered(xs[..|xs| - 1]);
      InsertKeepsOrder(xs[|xs| - 1], SortNewestFirst(xs[..|xs| - 1]));
    }
  }

  /** ... and neither loses nor adds a file. */
  lemma {:induction false} SortIsPermutation(xs: seq<ScannedFile>)
    ensures multiset(SortNewestFirst(xs)) == multiset(xs)
    decreases |xs|
  {
    if xs != [] {
      SortIsPermutation(xs[..|xs| - 1]);
      InsertPermutes(xs[|xs| - 1], SortNewestFirst(xs[..|xs| - 1]));
      assert xs == xs[..|xs| - 1] + [xs[|xs| - 1]];
    }
  }

  /** The files with modification time `t`, in their order. */
  function WithMtime(xs: seq<ScannedFile>, t: nat): seq<ScannedFile> {
    if xs == [] then []
    else (if MtimeOf(xs[0]) == t then [xs[0]] else []) + WithMtime(xs[1..], t)
  }

  lemma {:induction false} WithMtimeAppend(a: seq<ScannedFile>, b: seq<ScannedFile>, t: nat)
    ensures WithMtime(a + b, t) == WithMtime(a, t) + WithMtime(b, t)
  {
    if a != [] {
      assert (a + b)[1..] == a[1..] + b;
      WithMtimeAppend(a[1..], b, t);
    } else {
      assert a + b == b;
    }
  }

  lemma {:induction false} NoneWithMtime(xs: seq<ScannedFile>, t: nat)
    requires forall k :: 0 <= k < |xs| ==> MtimeOf(xs[k]) < t
    ensures WithMtime(xs, t) == []
  {
    if xs != [] {
      NoneWithMtime(xs[1..], t);
    }
  }

  lemma {:induction false} InsertKeepsTies(x: ScannedFile, xs: seq<ScannedFile>, t: nat)
    requires IsNewestFirst(xs)
    ensures WithMtime(Insert(x, xs), t) == WithMtime(xs, t) + (if MtimeOf(x) == t then [x] else [])
  {
    if xs == [] {
    } else if MtimeOf(xs[0]) >= MtimeOf(x) {
      TailNewestFirst(xs);
      InsertKeepsTies(x, xs[1..], t);
      assert ([xs[0]] + Insert(x, xs[1..]))[1..] == Insert(x, xs[1..]);
    } else {
      assert ([x] + xs)[1..] == xs;
      if MtimeOf(x) == t {
        assert AllAtMost(xs, MtimeOf(xs[0]));
        NoneWithMtime(xs, t);
      }
    }
  }

  /** The sort is stable: the files sharing any one modification time keep
      their relative order. */
  lemma {:induction false} SortIsStable(xs: seq<ScannedFile>, t: nat)
    ensures WithMtime(SortNewestFirst(xs), t) == WithMtime(xs, t)
    decreases |xs|
  {
    if xs != [] {
      var init, last := xs[..|xs| - 1], xs[|xs| - 1];
      SortIsStable(init, t);
      SortIsOrdered(init);
      InsertKeepsTies(last, SortNewestFirst(init), t);
      assert xs == init + [last];
      WithMtimeAppend(init, [last], t);
    }
  }

  /** `xs[:n]`. */
  function Take(xs: seq<ScannedFile>, n: nat): (r: seq<ScannedFile>)
    ensures |r| == if |xs| < n then |xs| else n
  {
    if |xs| <= n then xs else xs[..n]
  }

  /** The five files the report lists: the newest ones, newest first. Every
      file left out is at most as new as every file listed. */
  function Shown(xs: seq<ScannedFile>): seq<ScannedFile> {
    Take(SortNewestFirst(xs), 5)
  }

  lemma ShownAreTheNewest(xs: seq<ScannedFile>)
    ensures var s := Shown(xs);
            && |s| == (if |xs| < 5 then |xs| else 5)
            && IsNewestFirst(s)
            && (forall y :: y in s ==> y in xs)
            && (forall y, z :: y in xs && y !in s && z in s ==> MtimeOf(z) >= MtimeOf(y))
  {
    var sorted := SortNewestFirst(xs);
    SortIsOrdered(xs);
    SortIsPermutation(xs);
    var s := Shown(xs);
    assert s == sorted[..|s|];
    forall y | y in s ensures y in xs {
      assert y in multiset(sorted);
    }
    forall y, z | y in xs && y !in s && z in s ensures MtimeOf(z) >= MtimeOf(y) {
      assert y in multiset(sorted);
      var j :| 0 <= j < |sorted| && sorted[j] == y;
      var i :| 0 <= i < |s| && s[i] == z;
      assert j >= |s|;
      assert sorted[i] == z;
    }
  }
}
