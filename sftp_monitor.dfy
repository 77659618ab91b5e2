/** Processo_2.py: the SFTP folder monitor. Each monitored folder is listed
    (`listar_arquivos_pasta`), classified as unreadable, empty or holding
    files, and the classifications are counted into the overall status of the
    Teams card. The SFTP session is an input: `Server` gives, for each path,
    the entries `listdir` returns with the attributes `stat` reports, or None
    when `listdir` raises. */
module SftpMonitor {
  import opened Text

  /** What `sftp.stat` reports for an entry: whether its mode is a directory,
      its modification moment and its size in bytes. */
  datatype Attrs = Attrs(isDir: bool, mtime: nat, size: nat)

  /** A name from `listdir`, with its attributes, or None when `stat` raised. */
  datatype RemoteEntry = RemoteEntry(name: string, attrs: Option<Attrs>)

  type Server = string -> Option<seq<RemoteEntry>>

  /** One line of the folder's detail: a file with its size and date, or a
      name whose `stat` failed, shown with "N/A" for both. */
  datatype FileInfo = Detailed(name: string, size: nat, mtime: nat) | Unknown(name: string)

  /** What one entry contributes to the detail list: nothing for a directory. */
  function DetailOf(e: RemoteEntry): (d: seq<FileInfo>)
    ensures |d| <= 1
  {
    match e.attrs
    case None => [Unknown(e.name)]
    case Some(a) => if a.isDir then [] else [Detailed(e.name, a.size, a.mtime)]
  }

  /** The detail list of a listing, in listing order. */
  function Details(es: seq<RemoteEntry>): (ds: seq<FileInfo>)
    ensures |ds| <= |es|
  {
    if es == [] then [] else Details(es[..|es| - 1]) + DetailOf(es[|es| - 1])
  }

  /** The detail list keeps listing order: the details of a listing split in
      two are the details of each part, one after the other... */
  lemma {:induction false} DetailsAppend(a: seq<RemoteEntry>, b: seq<RemoteEntry>)
    ensures Details(a + b) == Details(a) + Details(b)
    decreases |b|
  {
    if b == [] {
      assert a + b == a;
    } else {
      assert (a + b)[..|a + b| - 1] == a + b[..|b| - 1];
      DetailsAppend(a, b[..|b| - 1]);
    }
  }

  /** ... and a single entry is dropped exactly when `stat` says it is a
      directory; an entry whose `stat` fails is kept with "N/A". */
  lemma DetailOfOne(e: RemoteEntry)
    ensures Details([e]) == DetailOf(e)
    ensures DetailOf(e) == [] <==> IsDirectory(e)
    ensures e.attrs.None? ==> DetailOf(e) == [Unknown(e.name)]
  {
    assert [e][..0] == [];
  }

  predicate IsDirectory(e: RemoteEntry) {
    e.attrs.Some? && e.attrs.value.isDir
  }

  /** A listed entry named `name` that is not a directory. */
  predicate ListsFile(es: seq<RemoteEntry>, name: string) {
    exists e :: e in es && e.name == name && !IsDirectory(e)
  }

  predicate HasLine(ds: seq<FileInfo>, name: string) {
    exists d :: d in ds && d.name == name
  }

  /** Every line of the detail list names a listed entry that is not a
      directory, and every such entry has a line. */
  lemma {:induction false} DetailsNames(es: seq<RemoteEntry>)
    ensures forall n :: HasLine(Details(es), n) <==> ListsFile(es, n)
  {
    if es != [] {
      var init, last := es[..|es| - 1], es[|es| - 1];
      DetailsNames(init);
      assert es == init + [last];
      forall n ensures HasLine(Details(es), n) <==> ListsFile(es, n) {
        if HasLine(Details(es), n) {
          var d :| d in Details(es) && d.name == n;
          if d in Details(init) {
            assert HasLine(Details(init), n);
            var e :| e in init && e.name == n && !IsDirectory(e);
            assert e in es;
          } else {
            assert d in DetailOf(last);
          }
        }
        if ListsFile(es, n) {
          var e :| e in es && e.name == n && !IsDirectory(e);
          if e in init {
            assert ListsFile(init, n);
            var d :| d in Details(init) && d.name == n;
            assert d in Details(es);
          } else {
            assert DetailOf(last)[0] in Details(es);
          }
        }
      }
    }
  }

  /** `listar_arquivos_pasta`: the details of the folder, or None when it
      cannot be listed. */
  method ListarArquivosPasta(server: Server, path: string) returns (r: Option<seq<FileInfo>>)
    ensures server(path).None? <==> r.None?
    ensures server(path).Some? ==> r == Some(Details(server(path).value))
  {
    var listing := server(path);
    if listing.None? {
      return None;
    }
    var entries := listing.value;
    var detailed := [];
    for i := 0 to |entries|
      invariant detailed == Details(entries[..i])
    {
      assert entries[..i + 1][..i] == entries[..i];
      var e := entries[i];
      match e.attrs {
        case None =>
          detailed := detailed + [Unknown(e.name)];
        case Some(a) =>
          if !a.isDir {
            detailed := detailed + [Detailed(e.name, a.size, a.mtime)];
          }
      }
    }
    assert entries[..|entries|] == entries;
    return Some(detailed);
  }

  /** One entry of `resultados`. */
  datatype FolderResult = FolderResult(folder: string, files: Option<seq<FileInfo>>)

  /** The three-way test that the log, the card and the console each make:
      unreadable, empty, or holding files. */
  datatype FolderState = Unreadable | Empty | HasFiles(count: nat)

  function Classify(files: Option<seq<FileInfo>>): (s: FolderState)
    ensures s.HasFiles? ==> s.count > 0
  {
    if files.None? then Unreadable
    else if |files.value| == 0 then Empty
    else HasFiles(|files.value|)
  }

  /** The card's counters: folders in error, empty folders, and files in the
      folders that hold some. */
  datatype Counters = Counters(totalFiles: nat, errors: nat, empties: nat)

  function CountAll(rs: seq<FolderResult>): (c: Counters)
    ensures c.errors + c.empties <= |rs|
  {
    if rs == [] then Counters(0, 0, 0)
    else
      var c := CountAll(rs[..|rs| - 1]);
      match Classify(rs[|rs| - 1].files)
      case Unreadable => c.(errors := c.errors + 1)
      case Empty => c.(empties := c.empties + 1)
      case HasFiles(n) => c.(totalFiles := c.totalFiles + n)
  }

  predicate SomeUnreadable(rs: seq<FolderResult>) {
    exists i :: 0 <= i < |rs| && rs[i].files.None?
  }

  predicate SomeHoldsFiles(rs: seq<FolderResult>) {
    exists i :: 0 <= i < |rs| && rs[i].files.Some? && rs[i].files.value != []
  }

  /** The counters mean what the card says: some error exactly when a folder
      could not be listed, files exactly when some folder holds any, and the
      empty count is what is left over from the folders not in the other two. */
  lemma {:induction false} CountersMeaning(rs: seq<FolderResult>)
    ensures CountAll(rs).errors > 0 <==> SomeUnreadable(rs)
    ensures CountAll(rs).totalFiles > 0 <==> SomeHoldsFiles(rs)
    ensures CountAll(rs).errors == 0 && CountAll(rs).totalFiles == 0 ==> CountAll(rs).empties == |rs|
  {
    if rs != [] {
      var init := rs[..|rs| - 1];
      CountersMeaning(init);
      assert forall i :: 0 <= i < |init| ==> init[i] == rs[i];
      if SomeUnreadable(init) {
        var i :| 0 <= i < |init| && init[i].files.None?;
        assert rs[i].files.None?;
      }
      if SomeHoldsFiles(init) {
        var i :| 0 <= i < |init| && init[i].files.Some? && init[i].files.value != [];
        assert rs[i] == init[i];
      }
      if SomeUnreadable(rs) && !rs[|rs| - 1].files.None? {
        var i :| 0 <= i < |rs| && rs[i].files.None?;
        assert init[i].files.None?;
      }
      if SomeHoldsFiles(rs) && (rs[|rs| - 1].files.None? || rs[|rs| - 1].files.value == []) {
        var i :| 0 <= i < |rs| && rs[i].files.Some? && rs[i].files.value != [];
        assert init[i] == rs[i];
      }
    }
  }

  /** `enviar_para_teams`: the loop over the results that counts them. */
  method Summarize(rs: seq<FolderResult>) returns (c: Counters)
    ensures c == CountAll(rs)
  {
    c := Counters(0, 0, 0);
    for i := 0 to |rs|
      invariant c == CountAll(rs[..i])
    {
      assert rs[..i + 1][..i] == rs[..i];
      var files := rs[i].files;
      if files.None? {
        c := c.(errors := c.errors + 1);
      } else if |files.value| == 0 {
        c := c.(empties := c.empties + 1);
      } else {
        c := c.(totalFiles := c.totalFiles + |files.value|);
      }
    }
    assert rs[..|rs|] == rs;
  }

  /** The card's overall status and container style. */
  datatype Overall = Attention | FilesDetected | AllGood

  function OverallStatus(c: Counters): Overall {
    if c.errors > 0 then Attention
    else if c.totalFiles > 0 then FilesDetected
    else AllGood
  }

  /** An unreadable folder outranks files, and the status is "all good"
      exactly when every monitored folder was read and found empty. */
  lemma OverallMeaning(rs: seq<FolderResult>)
    ensures OverallStatus(CountAll(rs)) == Attention <==> SomeUnreadable(rs)
    ensures OverallStatus(CountAll(rs)) == FilesDetected <==> !SomeUnreadable(rs) && SomeHoldsFiles(rs)
    ensures OverallStatus(CountAll(rs)) == AllGood <==>
              forall i :: 0 <= i < |rs| ==> rs[i].files == Some([])
  {
    CountersMeaning(rs);
  }

  /** `pasta.split('/')[-1]`: the folder's label on the card and the console. */
  function Label(folder: string): (l: string)
    ensures '/' !in l
  {
    var parts := SplitOn(folder, '/');
    SplitOnLast(folder, '/');
    parts[|parts| - 1]
  }

  /** The label is the tail of the path after its last slash, or the whole
      path when it has none: "/home/sftp/uol/Inboxnetp" is labelled "Inboxnetp". */
  lemma LabelIsLastComponent(folder: string)
    ensures var l := Label(folder);
            && '/' !in l && |l| <= |folder| && folder[|folder| - |l|..] == l
            && (|l| == |folder| || folder[|folder| - |l| - 1] == '/')
  {
    SplitOnLast(folder, '/');
  }

  /** One result per monitored folder, in the configured order, each with
      what listing that folder gave. */
  predicate ResultsFor(server: Server, folders: seq<string>, rs: seq<FolderResult>) {
    && |rs| == |folders|
    && forall i :: 0 <= i < |folders| ==>
         rs[i].folder == folders[i]
         && rs[i].files == (if server(folders[i]).None? then None else Some(Details(server(folders[i]).value)))
  }

  /** The run's report: the results, the counters and the overall status. */
  datatype Report = Report(results: seq<FolderResult>, counters: Counters, overall: Overall)

  /** `executar`: without an SFTP connection the run fails with no report;
      with one it lists every monitored folder, reports, and succeeds however
      the folders or the Teams post turned out. */
  method Executar(server: Server, connected: bool, folders: seq<string>) returns (ok: bool, report: Option<Report>)
    ensures ok <==> connected
    ensures report.Some? <==> connected
    ensures report.Some? ==> && ResultsFor(server, folders, report.value.results)
                             && report.value.counters == CountAll(report.value.results)
                             && report.value.overall == OverallStatus(report.value.counters)
  {
    if !connected {
      return false, None;
    }
    var results := [];
    for i := 0 to |folders|
      invariant ResultsFor(server, folders[..i], results)
    {
      var files := ListarArquivosPasta(server, folders[i]);
      results := results + [FolderResult(folders[i], files)];
    }
    assert folders[..|folders|] == folders;
    var counters := Summarize(results);
    return true, Some(Report(results, counters, OverallStatus(counters)));
  }
}
