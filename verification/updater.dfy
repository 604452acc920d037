/** The offline index builder: it reads the list of Wikipedia titles, downloads
    the pages whose text file is not there yet, splits every document into
    chunks and hands the chunks, in order, to the index, which it persists.

    The filesystem is a map from path to contents, and how writing a page to a
    path goes is the oracle `write`; `wikipedia.page`, the directory reader and
    the token splitter are the oracles `download`, `readDir` and `split`; the
    vector index itself and its persistence are not part of this model. */
module IndexUpdater {
  import opened Wrappers
  import PyStr

  const WIKI_DIR := "data/wikipedia_pages"
  const DEFAULT_INDEX_DIR := "data/index"

  /** A filesystem: the contents of each existing file, by path. */
  type Files = map<string, string>

  /** A llama_index document: an id, its text and its metadata. */
  datatype Document = Document(docId: string, text: string, extraInfo: map<string, string>)

  // ---------------------------------------------------------------- titles

  /** `load_wikipedia_page_titles` on the lines of the file: each line
      stripped, blank ones dropped. */
  function LoadTitles(lines: seq<string>): (titles: seq<string>)
    ensures |titles| <= |lines|
    decreases |lines|
  {
    if lines == [] then []
    else
      var t := PyStr.Strip(lines[|lines| - 1]);
      LoadTitles(lines[..|lines| - 1]) + (if t != "" then [t] else [])
  }

  /** The positions of the lines that are not blank. */
  function KeptLines(lines: seq<string>): seq<nat>
    decreases |lines|
  {
    if lines == [] then []
    else
      KeptLines(lines[..|lines| - 1]) +
      (if PyStr.Strip(lines[|lines| - 1]) != "" then [|lines| - 1] else [])
  }

  /** The titles are the stripped non-blank lines, in file order: title `k`
      comes from line `KeptLines(lines)[k]`, those positions increase, and a
      line is kept exactly when it is not blank. */
  lemma LoadTitlesSpec(lines: seq<string>)
    ensures |LoadTitles(lines)| == |KeptLines(lines)|
    ensures forall k :: 0 <= k < |KeptLines(lines)| ==>
      KeptLines(lines)[k] < |lines| && LoadTitles(lines)[k] == PyStr.Strip(lines[KeptLines(lines)[k]])
    ensures forall k, m :: 0 <= k < m < |KeptLines(lines)| ==> KeptLines(lines)[k] < KeptLines(lines)[m]
    ensures forall j :: 0 <= j < |lines| ==> (j in KeptLines(lines) <==> PyStr.Strip(lines[j]) != "")
  {
    TitlesFromKept(lines);
    KeptIncreasing(lines);
    forall j | 0 <= j < |lines| ensures (j in KeptLines(lines) <==> PyStr.Strip(lines[j]) != "") {
      KeptMembership(lines, j);
    }
  }

  /** Every title is non-empty and has no whitespace at either end. */
  lemma TitlesTrimmed(lines: seq<string>)
    ensures forall k :: 0 <= k < |LoadTitles(lines)| ==>
      LoadTitles(lines)[k] != "" &&
      !PyStr.IsSpace(LoadTitles(lines)[k][0]) && !PyStr.IsSpace(LoadTitles(lines)[k][|LoadTitles(lines)[k]| - 1])
  {
    TitlesFromKept(lines);
    forall k | 0 <= k < |LoadTitles(lines)|
      ensures LoadTitles(lines)[k] != "" &&
        !PyStr.IsSpace(LoadTitles(lines)[k][0]) && !PyStr.IsSpace(LoadTitles(lines)[k][|LoadTitles(lines)[k]| - 1])
    {
      var j := KeptLines(lines)[k];
      KeptMembership(lines, j);
      PyStr.StripSpec(lines[j]);
    }
  }

  lemma {:induction false} TitlesFromKept(lines: seq<string>)
    ensures |LoadTitles(lines)| == |KeptLines(lines)|
    ensures forall k :: 0 <= k < |KeptLines(lines)| ==>
      KeptLines(lines)[k] < |lines| && LoadTitles(lines)[k] == PyStr.Strip(lines[KeptLines(lines)[k]])
    decreases |lines|
  {
    if lines != [] {
      var n := |lines| - 1;
      var init := lines[..n];
      var t := PyStr.Strip(lines[n]);
      TitlesFromKept(init);
      var titles, kept := LoadTitles(lines), KeptLines(lines);
      var titles0, kept0 := LoadTitles(init), KeptLines(init);
      assert titles == titles0 + (if t != "" then [t] else []);
      assert kept == kept0 + (if t != "" then [n] else []);
      forall k | 0 <= k < |kept| ensures kept[k] < |lines| && titles[k] == PyStr.Strip(lines[kept[k]]) {
        if k < |kept0| {
          assert kept[k] == kept0[k] && titles[k] == titles0[k];
          assert init[kept0[k]] == lines[kept0[k]];
        }
      }
    }
  }

  lemma {:induction false} KeptIncreasing(lines: seq<string>)
    ensures forall k :: 0 <= k < |KeptLines(lines)| ==> KeptLines(lines)[k] < |lines|
    ensures forall k, m :: 0 <= k < m < |KeptLines(lines)| ==> KeptLines(lines)[k] < KeptLines(lines)[m]
    decreases |lines|
  {
    if lines != [] {
      var n := |lines| - 1;
      var kept, kept0 := KeptLines(lines), KeptLines(lines[..n]);
      KeptIncreasing(lines[..n]);
      var last: seq<nat> := if PyStr.Strip(lines[n]) != "" then [n] else [];
      assert kept == kept0 + last;
      forall k | 0 <= k < |kept| ensures kept[k] < |lines| {
        if k < |kept0| {
          assert kept[k] == kept0[k];
        }
      }
      forall k, m | 0 <= k < m < |kept| ensures kept[k] < kept[m] {
        assert kept[k] == kept0[k];
        if m < |kept0| {
          assert kept[m] == kept0[m];
        } else {
          assert kept[m] == n;
        }
      }
    }
  }

  lemma {:induction false} KeptMembership(lines: seq<string>, j: nat)
    requires j < |lines|
    ensures j in KeptLines(lines) <==> PyStr.Strip(lines[j]) != ""
    decreases |lines|
  {
    var init := lines[..|lines| - 1];
    KeptIncreasing(init);
    if j < |lines| - 1 {
      KeptMembership(init, j);
      assert init[j] == lines[j];
    }
  }

  // ------------------------------------------------------------- file names

  /** `f"{title.replace(' ', '_')}.txt"` */
  function FileName(title: string): string {
    PyStr.ReplaceChar(title, ' ', '_') + ".txt"
  }

  /** `WIKI_DIR / FileName(title)`, as a string. */
  function FilePath(title: string): string {
    WIKI_DIR + "/" + FileName(title)
  }

  /** The file name is the title with every space turned into an underscore,
      then ".txt": it holds no space, and a title without underscores comes
      back from its file name. */
  lemma FileNameSpec(title: string)
    ensures |FileName(title)| == |title| + 4
    ensures ' ' !in FileName(title)
    ensures FileName(title)[|title|..] == ".txt"
    ensures '_' !in title ==> PyStr.ReplaceChar(FileName(title)[..|title|], '_', ' ') == title
  {
    var r := PyStr.ReplaceChar(title, ' ', '_');
    assert FileName(title)[..|title|] == r;
    if '_' !in title {
      var back := PyStr.ReplaceChar(r, '_', ' ');
      forall k | 0 <= k < |title| ensures back[k] == title[k] {
        assert title[k] != '_';
      }
    }
  }

  /** Two titles that differ only in spaces against underscores share a file
      name. */
  lemma FileNamesCollide()
    ensures FileName("Big Data") == FileName("Big_Data")
  {
  }

  // -------------------------------------------------------------- downloads

  /** The exception that left the download loop: writing the page of `path`
      failed. It is raised outside the `try`, so it leaves
      `build_index_from_titles` and the build ends there. */
  datatype WriteError = WriteFailed(path: string)

  /** What `with open(filename, "w") as f: f.write(text)` did: the page was
      saved; `open` itself raised and no file was made (for instance a title
      holding '/' names a directory under `WIKI_DIR` that was never created);
      or the file was created and then writing raised (an encoding error, a
      full disk), leaving only its first `kept` characters behind. */
  datatype WriteOutcome = Saved | NotOpened | Interrupted(kept: nat)

  /** The files on disk when the download loop stops, and the write failure
      that stopped it, if any. Pages written before a failure stay on disk. */
  datatype Synced = Synced(files: Files, failure: Option<WriteError>)

  /** The part of `text` an interrupted write leaves in the file. */
  function KeptText(text: string, kept: nat): (r: string)
    ensures r <= text
  {
    if kept < |text| then text[..kept] else text
  }

  /** One iteration of the download loop: skip a title whose file exists;
      otherwise try the download, skip the title when it fails, and write the
      page text when it succeeds. `write(path, text)` says how writing went. */
  function Fetch(files: Files, title: string, download: string -> Option<string>,
                 write: (string, string) -> WriteOutcome): Synced
  {
    var path := FilePath(title);
    if path in files then Synced(files, None)
    else
      match download(title)
      case None => Synced(files, None)
      case Some(text) =>
        match write(path, text)
        case Saved => Synced(files[path := text], None)
        case NotOpened => Synced(files, Some(WriteFailed(path)))
        case Interrupted(kept) => Synced(files[path := KeptText(text, kept)], Some(WriteFailed(path)))
  }

  /** The disk after the download loop over `titles`, with the write failure
      that ended it early, if any. */
  function Sync(files: Files, titles: seq<string>, download: string -> Option<string>,
                write: (string, string) -> WriteOutcome): Synced
    decreases |titles|
  {
    if titles == [] then Synced(files, None)
    else
      var r := Fetch(files, titles[0], download, write);
      if r.failure.Some? then r else Sync(r.files, titles[1..], download, write)
  }

  /** The titles the loop tries to download, in order, up to and including
      one whose page could not be written. */
  function Attempts(files: Files, titles: seq<string>, download: string -> Option<string>,
                    write: (string, string) -> WriteOutcome): seq<string>
    decreases |titles|
  {
    if titles == [] then []
    else
      var r := Fetch(files, titles[0], download, write);
      var rest := if r.failure.Some? then [] else Attempts(r.files, titles[1..], download, write);
      if FilePath(titles[0]) in files then rest else [titles[0]] + rest
  }

  /** The download loop of `build_index_from_titles`. */
  method DownloadPages(titles: seq<string>, files: Files, download: string -> Option<string>,
                       write: (string, string) -> WriteOutcome)
    returns (result: Synced, attempted: seq<string>)
    ensures result == Sync(files, titles, download, write)
    ensures attempted == Attempts(files, titles, download, write)
  {
    var current := files;
    attempted := [];
    for i := 0 to |titles|
      invariant Sync(current, titles[i..], download, write) == Sync(files, titles, download, write)
      invariant attempted + Attempts(current, titles[i..], download, write) == Attempts(files, titles, download, write)
    {
      SyncStep(current, titles, i, download, write);
      AttemptsStep(attempted, current, titles, i, download, write);
      var next, wasTried := DownloadOne(current, titles[i], download, write);
      if wasTried {
        attempted := attempted + [titles[i]];
      }
      if next.failure.Some? {
        return next, attempted;
      }
      current := next.files;
    }
    assert titles[|titles|..] == [];
    result := Synced(current, None);
  }

  /** The titles tried so far followed by those still to be tried, one step
      further into the loop. */
  lemma AttemptsStep(attempted: seq<string>, files: Files, titles: seq<string>, i: nat,
                     download: string -> Option<string>, write: (string, string) -> WriteOutcome)
    requires i < |titles|
    ensures var r := Fetch(files, titles[i], download, write);
      var rest := if r.failure.Some? then [] else Attempts(r.files, titles[i + 1..], download, write);
      attempted + Attempts(files, titles[i..], download, write) ==
      (if FilePath(titles[i]) in files then attempted else attempted + [titles[i]]) + rest
  {
    SyncStep(files, titles, i, download, write);
    var r := Fetch(files, titles[i], download, write);
    var rest := if r.failure.Some? then [] else Attempts(r.files, titles[i + 1..], download, write);
    if FilePath(titles[i]) !in files {
      assert attempted + ([titles[i]] + rest) == (attempted + [titles[i]]) + rest;
    }
  }

  /** One iteration of the download loop: the title's file is left alone when
      it exists; otherwise the download is tried, and the page text is written
      when it succeeds; a failed write ends the loop, leaving whatever file
      `open` created. */
  method DownloadOne(files: Files, title: string, download: string -> Option<string>,
                     write: (string, string) -> WriteOutcome)
    returns (result: Synced, tried: bool)
    ensures result == Fetch(files, title, download, write)
    ensures tried <==> FilePath(title) !in files
  {
    var filename := FilePath(title);
    if filename in files {
      return Synced(files, None), false;
    }
    var page := download(title);
    if page.None? {
      return Synced(files, None), true;
    }
    var text := page.value;
    var outcome := write(filename, text);
    match outcome {
      case Saved =>
        result := Synced(files[filename := text], None);
      case NotOpened =>
        result := Synced(files, Some(WriteFailed(filename)));
      case Interrupted(kept) =>
        var left := if kept < |text| then text[..kept] else text;
        result := Synced(files[filename := left], Some(WriteFailed(filename)));
    }
    tried := true;
  }

  /** One step of the loop, unfolded. */
  lemma SyncStep(files: Files, titles: seq<string>, i: nat, download: string -> Option<string>,
                 write: (string, string) -> WriteOutcome)
    requires i < |titles|
    ensures var r := Fetch(files, titles[i], download, write);
      Sync(files, titles[i..], download, write) ==
      (if r.failure.Some? then r else Sync(r.files, titles[i + 1..], download, write))
    ensures var r := Fetch(files, titles[i], download, write);
      var rest := if r.failure.Some? then [] else Attempts(r.files, titles[i + 1..], download, write);
      Attempts(files, titles[i..], download, write) == if FilePath(titles[i]) in files then rest else [titles[i]] + rest
  {
    assert titles[i..][1..] == titles[i + 1..];
  }

  /** A file that already exists is never downloaded again nor overwritten,
      whether or not the loop completes. */
  lemma {:induction false} SyncKeepsExisting(files: Files, titles: seq<string>,
                                             download: string -> Option<string>, write: (string, string) -> WriteOutcome)
    ensures forall p :: p in files ==>
      p in Sync(files, titles, download, write).files && Sync(files, titles, download, write).files[p] == files[p]
    decreases |titles|
  {
    if titles != [] {
      var r := Fetch(files, titles[0], download, write);
      if r.failure.None? {
        SyncKeepsExisting(r.files, titles[1..], download, write);
      }
    }
  }

  /** Running the loop over `a + b` is running it over `a` and, unless that
      failed, over `b` on the disk `a` left; the titles tried are those of
      the first run followed by those of the second. */
  lemma SyncAppend(files: Files, a: seq<string>, b: seq<string>,
                   download: string -> Option<string>, write: (string, string) -> WriteOutcome)
    ensures var r := Sync(files, a, download, write);
      Sync(files, a + b, download, write) == if r.failure.Some? then r else Sync(r.files, b, download, write)
    ensures var r := Sync(files, a, download, write);
      Attempts(files, a + b, download, write) ==
      Attempts(files, a, download, write) + (if r.failure.Some? then [] else Attempts(r.files, b, download, write))
  {
    SyncOfAppend(files, a, b, download, write);
    AttemptsOfAppend(files, a, b, download, write);
  }

  lemma {:induction false} SyncOfAppend(files: Files, a: seq<string>, b: seq<string>,
                                        download: string -> Option<string>, write: (string, string) -> WriteOutcome)
    ensures var r := Sync(files, a, download, write);
      Sync(files, a + b, download, write) == if r.failure.Some? then r else Sync(r.files, b, download, write)
    decreases |a|
  {
    if a == [] {
      assert a + b == b;
    } else {
      var r := Fetch(files, a[0], download, write);
      var ab := a + b;
      assert ab[0] == a[0];
      assert ab[1..] == a[1..] + b;
      if r.failure.None? {
        SyncOfAppend(r.files, a[1..], b, download, write);
      }
    }
  }

  lemma {:induction false} AttemptsOfAppend(files: Files, a: seq<string>, b: seq<string>,
                                            download: string -> Option<string>, write: (string, string) -> WriteOutcome)
    ensures var r := Sync(files, a, download, write);
      Attempts(files, a + b, download, write) ==
      Attempts(files, a, download, write) + (if r.failure.Some? then [] else Attempts(r.files, b, download, write))
    decreases |a|
  {
    if a == [] {
      assert a + b == b;
    } else {
      var r := Fetch(files, a[0], download, write);
      var ab := a + b;
      assert ab[0] == a[0];
      assert ab[1..] == a[1..] + b;
      if r.failure.None? {
        AttemptsOfAppend(r.files, a[1..], b, download, write);
        var rest := Attempts(r.files, a[1..], download, write);
        var s1 := Sync(r.files, a[1..], download, write);
        var tail: seq<string> := if s1.failure.Some? then [] else Attempts(s1.files, b, download, write);
        assert Attempts(r.files, a[1..] + b, download, write) == rest + tail;
        if FilePath(a[0]) !in files {
          assert [a[0]] + (rest + tail) == ([a[0]] + rest) + tail;
        }
      }
    }
  }

  /** Pages written by the first titles stay on disk whatever happens to the
      titles after them, a write failure included. */
  lemma WrittenPagesSurvive(files: Files, a: seq<string>, b: seq<string>,
                            download: string -> Option<string>, write: (string, string) -> WriteOutcome)
    ensures forall p :: p in Sync(files, a, download, write).files ==>
      p in Sync(files, a + b, download, write).files &&
      Sync(files, a + b, download, write).files[p] == Sync(files, a, download, write).files[p]
  {
    SyncAppend(files, a, b, download, write);
    var r := Sync(files, a, download, write);
    if r.failure.None? {
      SyncKeepsExisting(r.files, b, download, write);
    }
  }

  /** When the loop completes, a path exists afterwards exactly when it
      existed before or belongs to some title whose download succeeds. */
  lemma {:induction false} SyncPaths(files: Files, titles: seq<string>, download: string -> Option<string>,
                                     write: (string, string) -> WriteOutcome, p: string)
    requires Sync(files, titles, download, write).failure.None?
    ensures p in Sync(files, titles, download, write).files <==>
      p in files || exists t :: t in titles && FilePath(t) == p && download(t).Some?
    decreases |titles|
  {
    if titles != [] {
      var next := Fetch(files, titles[0], download, write).files;
      SyncPaths(next, titles[1..], download, write, p);
      assert forall t :: t in titles <==> t == titles[0] || t in titles[1..];
    }
  }

  /** A download is tried only for titles of the list whose file did not
      exist before the loop. */
  lemma {:induction false} AttemptsOnlyMissing(files: Files, titles: seq<string>,
                                               download: string -> Option<string>, write: (string, string) -> WriteOutcome)
    ensures forall t :: t in Attempts(files, titles, download, write) ==> t in titles && FilePath(t) !in files
    decreases |titles|
  {
    if titles != [] {
      var r := Fetch(files, titles[0], download, write);
      if r.failure.None? {
        AttemptsOnlyMissing(r.files, titles[1..], download, write);
        assert forall p :: p in files ==> p in r.files;
      }
    }
  }

  /** When the loop completes, a title whose file is still missing was tried
      and its download failed: a failed download skips the title and the loop
      goes on. */
  lemma {:induction false} MissingWasAttempted(files: Files, titles: seq<string>, download: string -> Option<string>,
                                               write: (string, string) -> WriteOutcome, t: string)
    requires t in titles && Sync(files, titles, download, write).failure.None?
    requires FilePath(t) !in Sync(files, titles, download, write).files
    ensures t in Attempts(files, titles, download, write) && download(t).None?
    decreases |titles|
  {
    SyncPaths(files, titles, download, write, FilePath(t));
    if t == titles[0] {
      assert FilePath(t) !in files;
    } else {
      assert t in titles[1..];
      MissingWasAttempted(Fetch(files, titles[0], download, write).files, titles[1..], download, write, t);
    }
  }

  /** A page that arrives but cannot be written ends the loop: the failure is
      that of the last title tried, whose download succeeded and whose write
      did not; its file exists afterwards exactly when `open` had created it,
      and then holds what was written before the failure. When every page
      that arrives can be written, the loop completes. */
  lemma WriteFailureEndsLoop(files: Files, titles: seq<string>,
                                                download: string -> Option<string>, write: (string, string) -> WriteOutcome)
    ensures var r, tried := Sync(files, titles, download, write), Attempts(files, titles, download, write);
      r.failure.Some? ==>
        (|tried| > 0 && var t := tried[|tried| - 1];
         r.failure == Some(WriteFailed(FilePath(t))) && download(t).Some? &&
         var o := write(FilePath(t), download(t).value);
         !o.Saved? && (FilePath(t) in r.files <==> o.Interrupted?) &&
         (o.Interrupted? ==> r.files[FilePath(t)] == KeptText(download(t).value, o.kept)))
    ensures (forall t :: t in titles && download(t).Some? ==> write(FilePath(t), download(t).value).Saved?) ==>
      Sync(files, titles, download, write).failure.None?
  {
    FailureIsLastAttempt(files, titles, download, write);
    SavedWritesComplete(files, titles, download, write);
  }

  /** Loop outcome `r` failed writing the page of title `t`, which had arrived,
      and the file it left is what the write outcome says. */
  predicate FailedOn(r: Synced, t: string, download: string -> Option<string>, write: (string, string) -> WriteOutcome) {
    r.failure == Some(WriteFailed(FilePath(t))) && download(t).Some? &&
    var o := write(FilePath(t), download(t).value);
    !o.Saved? && (FilePath(t) in r.files <==> o.Interrupted?) &&
    (o.Interrupted? ==> r.files[FilePath(t)] == KeptText(download(t).value, o.kept))
  }

  lemma {:induction false} FailureIsLastAttempt(files: Files, titles: seq<string>,
                                                download: string -> Option<string>, write: (string, string) -> WriteOutcome)
    ensures var r, tried := Sync(files, titles, download, write), Attempts(files, titles, download, write);
      r.failure.Some? ==> |tried| > 0 && FailedOn(r, tried[|tried| - 1], download, write)
    decreases |titles|
  {
    if titles != [] {
      var r := Fetch(files, titles[0], download, write);
      if r.failure.None? {
        FailureIsLastAttempt(r.files, titles[1..], download, write);
        var rest := Attempts(r.files, titles[1..], download, write);
        if FilePath(titles[0]) !in files && rest != [] {
          assert ([titles[0]] + rest)[|rest|] == rest[|rest| - 1];
        }
      } else {
        assert Attempts(files, titles, download, write) == [titles[0]];
      }
    }
  }

  lemma {:induction false} SavedWritesComplete(files: Files, titles: seq<string>,
                                               download: string -> Option<string>, write: (string, string) -> WriteOutcome)
    ensures (forall t :: t in titles && download(t).Some? ==> write(FilePath(t), download(t).value).Saved?) ==>
      Sync(files, titles, download, write).failure.None?
    decreases |titles|
  {
    if titles != [] {
      var r := Fetch(files, titles[0], download, write);
      if r.failure.None? {
        SavedWritesComplete(r.files, titles[1..], download, write);
        assert forall t :: t in titles[1..] ==> t in titles;
      }
    }
  }

  /** Once a write has failed, the titles after it are never tried: appending
      titles to a list whose loop fails changes neither the outcome nor the
      titles tried. */
  lemma AbortIgnoresLaterTitles(files: Files, titles: seq<string>, later: seq<string>,
                                download: string -> Option<string>, write: (string, string) -> WriteOutcome)
    requires Sync(files, titles, download, write).failure.Some?
    ensures Sync(files, titles + later, download, write) == Sync(files, titles, download, write)
    ensures Attempts(files, titles + later, download, write) == Attempts(files, titles, download, write)
  {
    SyncAppend(files, titles, later, download, write);
  }

  /** Whatever one run of the loop leaves on disk, a truncated or empty file
      from a failed write included, a later run keeps as it is and never
      downloads again. */
  lemma NextRunKeepsLeftovers(files: Files, titles: seq<string>, download: string -> Option<string>,
                              write: (string, string) -> WriteOutcome,
                              titles2: seq<string>, download2: string -> Option<string>,
                              write2: (string, string) -> WriteOutcome, t: string)
    requires FilePath(t) in Sync(files, titles, download, write).files
    ensures var left := Sync(files, titles, download, write).files;
      t !in Attempts(left, titles2, download2, write2) &&
      FilePath(t) in Sync(left, titles2, download2, write2).files &&
      Sync(left, titles2, download2, write2).files[FilePath(t)] == left[FilePath(t)]
  {
    var left := Sync(files, titles, download, write).files;
    AttemptsOnlyMissing(left, titles2, download2, write2);
    SyncKeepsExisting(left, titles2, download2, write2);
  }

  /** A write that fails right after `open` created the file leaves an empty
      file: the run ends with the failure, and every later run skips the title
      for good, keeping the empty file. */
  lemma EmptyFileAfterFailedWrite(files: Files, t: string, later: seq<string>,
                                  download: string -> Option<string>, write: (string, string) -> WriteOutcome,
                                  titles2: seq<string>, download2: string -> Option<string>,
                                  write2: (string, string) -> WriteOutcome)
    requires FilePath(t) !in files && download(t).Some?
    requires write(FilePath(t), download(t).value) == Interrupted(0)
    ensures Sync(files, [t] + later, download, write) == Synced(files[FilePath(t) := ""], Some(WriteFailed(FilePath(t))))
    ensures t !in Attempts(files[FilePath(t) := ""], titles2, download2, write2)
    ensures FilePath(t) in Sync(files[FilePath(t) := ""], titles2, download2, write2).files &&
      Sync(files[FilePath(t) := ""], titles2, download2, write2).files[FilePath(t)] == ""
  {
    var left := files[FilePath(t) := ""];
    assert KeptText(download(t).value, 0) == "";
    assert Fetch(files, t, download, write) == Synced(left, Some(WriteFailed(FilePath(t))));
    assert ([t] + later)[0] == t;
    AttemptsOnlyMissing(left, titles2, download2, write2);
    SyncKeepsExisting(left, titles2, download2, write2);
  }

  /** Of two titles sharing a missing file, only the first is downloaded when
      its page arrives and is saved; the second finds the file and is
      skipped. */
  lemma SharedFileDownloadedOnce(files: Files, a: string, b: string,
                                 download: string -> Option<string>, write: (string, string) -> WriteOutcome)
    requires FilePath(a) == FilePath(b) && FilePath(a) !in files
    requires download(a).Some? && write(FilePath(a), download(a).value) == Saved
    ensures Attempts(files, [a, b], download, write) == [a]
    ensures Sync(files, [a, b], download, write) == Synced(files[FilePath(a) := download(a).value], None)
  {
    var next := files[FilePath(a) := download(a).value];
    assert Fetch(files, a, download, write) == Synced(next, None);
    assert Fetch(next, b, download, write) == Synced(next, None);
    assert [a, b][1..] == [b];
    assert [b][1..] == [];
    assert Sync(next, [b], download, write) == Synced(next, None);
    assert Attempts(next, [b], download, write) == [];
  }

  // ----------------------------------------------------------------- chunks

  /** The copies of `d` that the inner loop appends, one per chunk, in the
      splitter's order. */
  function DocChunks(d: Document, split: string -> seq<string>): seq<Document> {
    var pieces := split(d.text);
    seq(|pieces|, k requires 0 <= k < |pieces| => d.(text := pieces[k]))
  }

  /** `chunked_docs` after the loops over `docs`. */
  function Chunks(docs: seq<Document>, split: string -> seq<string>): seq<Document>
    decreases |docs|
  {
    if docs == [] then [] else Chunks(docs[..|docs| - 1], split) + DocChunks(docs[|docs| - 1], split)
  }

  /** The number of chunks of `docs`. */
  function ChunkCount(docs: seq<Document>, split: string -> seq<string>): nat
    decreases |docs|
  {
    if docs == [] then 0 else ChunkCount(docs[..|docs| - 1], split) + |split(docs[|docs| - 1].text)|
  }

  /** The chunk loops of `build_index_from_titles`. */
  method ChunkDocuments(docs: seq<Document>, split: string -> seq<string>) returns (chunked: seq<Document>)
    ensures chunked == Chunks(docs, split)
  {
    chunked := [];
    for i := 0 to |docs|
      invariant chunked == Chunks(docs[..i], split)
    {
      var d := docs[i];
      var pieces := split(d.text);
      ghost var before := chunked;
      for j := 0 to |pieces|
        invariant chunked == before + DocChunks(d, split)[..j]
      {
        var newDoc := d.(text := pieces[j]);
        chunked := chunked + [newDoc];
        assert DocChunks(d, split)[..j + 1] == DocChunks(d, split)[..j] + [newDoc];
      }
      assert DocChunks(d, split)[..|pieces|] == DocChunks(d, split);
      assert docs[..i + 1][..i] == docs[..i];
    }
    assert docs[..|docs|] == docs;
  }

  /** Chunking distributes over concatenation of the document list. */
  lemma {:induction false} ChunksAppend(a: seq<Document>, b: seq<Document>, split: string -> seq<string>)
    ensures Chunks(a + b, split) == Chunks(a, split) + Chunks(b, split)
    decreases |b|
  {
    if b == [] {
      assert a + b == a;
    } else {
      var init, last := b[..|b| - 1], b[|b| - 1];
      assert (a + b)[..|a + b| - 1] == a + init;
      assert (a + b)[|a + b| - 1] == last;
      assert Chunks(a + b, split) == Chunks(a + init, split) + DocChunks(last, split);
      ChunksAppend(a, init, split);
      assert Chunks(b, split) == Chunks(init, split) + DocChunks(last, split);
    }
  }

  /** The chunk list holds, for each document in order, its chunks in the
      splitter's order: chunk `k` of document `i` sits after all chunks of
      the documents before it, is a copy of the document with the chunk as
      text, and the list is as long as the total number of chunks. */
  lemma {:induction false} ChunkAt(docs: seq<Document>, split: string -> seq<string>, i: nat, k: nat)
    requires i < |docs| && k < |split(docs[i].text)|
    ensures |Chunks(docs, split)| == ChunkCount(docs, split)
    ensures ChunkCount(docs[..i], split) + k < ChunkCount(docs, split)
    ensures Chunks(docs, split)[ChunkCount(docs[..i], split) + k] == docs[i].(text := split(docs[i].text)[k])
    decreases |docs|
  {
    var n := |docs| - 1;
    var init := docs[..n];
    ChunksLength(docs, split);
    ChunksLength(init, split);
    assert Chunks(docs, split) == Chunks(init, split) + DocChunks(docs[n], split);
    if i == n {
      assert DocChunks(docs[n], split)[k] == docs[i].(text := split(docs[i].text)[k]);
    } else {
      assert init[..i] == docs[..i] && init[i] == docs[i];
      ChunkAt(init, split, i, k);
    }
  }

  lemma {:induction false} ChunksLength(docs: seq<Document>, split: string -> seq<string>)
    ensures |Chunks(docs, split)| == ChunkCount(docs, split)
    decreases |docs|
  {
    if docs != [] {
      ChunksLength(docs[..|docs| - 1], split);
    }
  }

  // ------------------------------------------------------------- the build

  /** `INDEX_DIR`: the `INDEX_PATH` environment variable, else "data/index". */
  function IndexDir(env: map<string, string>): string {
    PyStr.EnvGet(env, "INDEX_PATH", DEFAULT_INDEX_DIR)
  }

  /** `index_path or str(INDEX_DIR)`: where the index is persisted. */
  function TargetPath(indexPath: Option<string>, indexDir: string): (p: string)
    ensures indexPath.Some? && indexPath.value != "" ==> p == indexPath.value
    ensures indexPath.None? || indexPath.value == "" ==> p == indexDir
  {
    PyStr.OrElse(indexPath, indexDir)
  }

  /** What a completed build produces: the chunk list handed to the index,
      and the path it is persisted to. */
  datatype Built = Built(chunks: seq<Document>, target: string)

  /** `build_index_from_titles`: the downloads, then the reader, the chunking
      and the target path; or the write failure that ended the downloads. In
      both cases `disk` is what the downloads left on disk. */
  method BuildIndexFromTitles(titles: seq<string>, indexPath: Option<string>, env: map<string, string>,
                              files: Files, download: string -> Option<string>,
                              write: (string, string) -> WriteOutcome,
                              readDir: Files -> seq<Document>, split: string -> seq<string>)
    returns (disk: Files, r: Result<Built, WriteError>)
    ensures disk == Sync(files, titles, download, write).files
    ensures var failure := Sync(files, titles, download, write).failure;
      failure.Some? ==> r == Err(failure.value)
    ensures Sync(files, titles, download, write).failure.None? ==>
      r == Ok(Built(Chunks(readDir(disk), split), TargetPath(indexPath, IndexDir(env))))
  {
    var synced, attempted := DownloadPages(titles, files, download, write);
    disk := synced.files;
    if synced.failure.Some? {
      return disk, Err(synced.failure.value);
    }
    var documents := readDir(disk);
    var chunked := ChunkDocuments(documents, split);
    var target := TargetPath(indexPath, IndexDir(env));
    r := Ok(Built(chunked, target));
  }
}
