/**
 * `extract_excel_files`: every spreadsheet in a folder listing gets a raw and
 * a clean parquet twin; the two returned lists grow together, one entry per
 * spreadsheet that made it through the whole `try` block.
 */
module ExcelExtraction {
  import opened PyStrings
  import opened Tables
  import opened Naming
  import opened Environment
  import Seqs

  /** What one iteration of the loop does with one directory entry. */
  datatype EntryOutcome =
    | Ignored                                                     // not a spreadsheet name
    | Failed(disk: Disk)                                          // an exception was caught
    | Processed(rawPath: string, cleanPath: string, disk: Disk)   // both writes done, both appends done

  /** The lists built so far and the disk. */
  datatype ExcelState = ExcelState(raw: seq<string>, clean: seq<string>, disk: Disk)

  datatype ExcelResult = ListingFailed | Extracted(raw: seq<string>, clean: seq<string>, disk: Disk)

  /** Whether an entry is selected and every step of its `try` block succeeds. */
  predicate Succeeds(w: World, folder: string, file: string)
  {
    && IsExcelName(file)
    && Join(folder, file) in w.sheets
    && SheetWrite(file, RawTwin) !in w.failedWrites
    && SheetWrite(file, CleanTwin) !in w.failedWrites
  }

  function SucceedsIn(w: World, folder: string): string -> bool
  {
    file => Succeeds(w, folder, file)
  }

  /** Reference definition: the entries that end up in the returned lists, in listing order. */
  function Successful(w: World, folder: string, entries: seq<string>): seq<string>
  {
    Seqs.Filter(entries, SucceedsIn(w, folder))
  }

  /**
   * Position k of `raw` and of `clean` hold the raw and the clean twin of the
   * same entry `ok[k]`, and the three lists have one length.
   */
  ghost predicate PairedTwins(folder: string, raw: seq<string>, clean: seq<string>, ok: seq<string>)
  {
    && |raw| == |ok| && |clean| == |ok|
    && forall k :: 0 <= k < |ok| ==> raw[k] == RawPath(folder, ok[k]) && clean[k] == CleanPath(folder, ok[k])
  }

  lemma PairedTwinsExtend(folder: string, raw: seq<string>, clean: seq<string>, ok: seq<string>, file: string)
    requires PairedTwins(folder, raw, clean, ok)
    ensures PairedTwins(folder, raw + [RawPath(folder, file)], clean + [CleanPath(folder, file)], ok + [file])
  {
  }

  /** One loop iteration: read, derive both names, write raw, write clean, append both. */
  function ProcessEntry(w: World, folder: string, file: string, disk: Disk): (o: EntryOutcome)
    ensures o.Ignored? <==> !IsExcelName(file)
    ensures o.Processed? <==> Succeeds(w, folder, file)
    ensures o.Processed? ==> o.rawPath == RawPath(folder, file) && o.cleanPath == CleanPath(folder, file)
  {
    if !IsExcelName(file) then Ignored
    else
      var filePath := Join(folder, file);
      if filePath !in w.sheets then Failed(disk)
      else
        var df := w.sheets[filePath];
        var rawPath := RawPath(folder, file);
        var cleanPath := CleanPath(folder, file);
        if SheetWrite(file, RawTwin) in w.failedWrites then Failed(disk)
        else
          var written := disk[rawPath := df];
          if SheetWrite(file, CleanTwin) in w.failedWrites then Failed(written)
          else Processed(rawPath, cleanPath, written[cleanPath := Clean(df)])
  }

  /**
   * What one entry leaves on disk: both twins when it succeeds (the raw one
   * holding the sheet, the clean one its complete rows), at most the raw twin
   * when it fails, nothing when it is ignored.
   */
  lemma ProcessEntryDisk(w: World, folder: string, file: string, disk: Disk)
    ensures var o := ProcessEntry(w, folder, file, disk);
      && (o.Processed? ==>
        && o.rawPath != o.cleanPath
        && o.disk == disk[o.rawPath := w.sheets[Join(folder, file)]][o.cleanPath := Clean(w.sheets[Join(folder, file)])])
      && (o.Failed? ==>
        || o.disk == disk
        || (Join(folder, file) in w.sheets && o.disk == disk[RawPath(folder, file) := w.sheets[Join(folder, file)]]))
  {
    if IsExcelName(file) {
      RawAndCleanPathsDiffer(folder, file);
    }
  }

  function Step(st: ExcelState, o: EntryOutcome): ExcelState
  {
    match o
    case Ignored => st
    case Failed(d) => ExcelState(st.raw, st.clean, d)
    case Processed(r, c, d) => ExcelState(st.raw + [r], st.clean + [c], d)
  }

  /** The loop over a listing, one entry after the other. */
  function ExcelRun(w: World, folder: string, entries: seq<string>, disk0: Disk): ExcelState
    decreases |entries|
  {
    if entries == [] then ExcelState([], [], disk0)
    else
      var before := ExcelRun(w, folder, entries[..|entries| - 1], disk0);
      Step(before, ProcessEntry(w, folder, entries[|entries| - 1], before.disk))
  }

  /** The loop over the first i + 1 entries is one more step after the first i. */
  lemma ExcelRunSnoc(w: World, folder: string, listing: seq<string>, i: nat, disk0: Disk)
    requires i < |listing|
    ensures var before := ExcelRun(w, folder, listing[..i], disk0);
      ExcelRun(w, folder, listing[..i + 1], disk0) == Step(before, ProcessEntry(w, folder, listing[i], before.disk))
  {
    assert listing[..i + 1][..i] == listing[..i];
  }

  /** The model of `extract_excel_files(folder)`. */
  method ExtractExcelFiles(w: World, folder: string, disk0: Disk) returns (r: ExcelResult)
    ensures r.ListingFailed? <==> folder !in w.folders
    ensures r.Extracted? ==>
      var st := ExcelRun(w, folder, w.folders[folder], disk0);
      r == Extracted(st.raw, st.clean, st.disk)
    ensures r.Extracted? ==> PairedTwins(folder, r.raw, r.clean, Successful(w, folder, w.folders[folder]))
  {
    if folder !in w.folders {
      return ListingFailed;
    }
    var listing := w.folders[folder];
    var rawPaths: seq<string> := [];
    var cleanPaths: seq<string> := [];
    var disk := disk0;
    for i := 0 to |listing|
      invariant ExcelState(rawPaths, cleanPaths, disk) == ExcelRun(w, folder, listing[..i], disk0)
    {
      var file := listing[i];
      ExcelRunSnoc(w, folder, listing, i, disk0);
      if IsExcelName(file) {
        var filePath := Join(folder, file);
        if filePath in w.sheets {
          var df := w.sheets[filePath];
          var rawPath := Join(folder, DeriveName(file, RawSuffix));
          var cleanPath := Join(folder, DeriveName(file, CleanSuffix));
          if SheetWrite(file, RawTwin) !in w.failedWrites {
            disk := disk[rawPath := df];
            if SheetWrite(file, CleanTwin) !in w.failedWrites {
              disk := disk[cleanPath := Clean(df)];
              rawPaths := rawPaths + [rawPath];
              cleanPaths := cleanPaths + [cleanPath];
            }
          }
        }
      }
    }
    assert listing[..|listing|] == listing;
    ExcelRunLists(w, folder, listing, disk0);
    r := Extracted(rawPaths, cleanPaths, disk);
  }

  /**
   * The two lists have the length of the reference filter, and position k of
   * each holds the twin of the same k-th successful entry.
   */
  lemma {:induction false} ExcelRunLists(w: World, folder: string, entries: seq<string>, disk0: Disk)
    ensures var st := ExcelRun(w, folder, entries, disk0);
      PairedTwins(folder, st.raw, st.clean, Successful(w, folder, entries))
    decreases |entries|
  {
    if entries != [] {
      var init, last := entries[..|entries| - 1], entries[|entries| - 1];
      assert entries == init + [last];
      var before := ExcelRun(w, folder, init, disk0);
      var o := ProcessEntry(w, folder, last, before.disk);
      assert ExcelRun(w, folder, entries, disk0) == Step(before, o);
      ExcelRunLists(w, folder, init, disk0);
      var p := SucceedsIn(w, folder);
      Seqs.FilterAppend(init, [last], p);
      Seqs.FilterSingleton(last, p);
      assert p(last) == Succeeds(w, folder, last);
      if o.Processed? {
        assert Successful(w, folder, entries) == Successful(w, folder, init) + [last];
        PairedTwinsExtend(folder, before.raw, before.clean, Successful(w, folder, init), last);
      } else {
        assert Successful(w, folder, entries) == Successful(w, folder, init);
      }
    }
  }

  /** `Successful` lists the entries in listing order. */
  lemma SuccessfulInListingOrder(w: World, folder: string, entries: seq<string>)
    ensures Seqs.Subsequence(Successful(w, folder, entries), entries)
  {
    Seqs.FilterIsSubsequence(entries, SucceedsIn(w, folder));
  }

  /** Each successful entry appears as often as it is listed (once, for `os.listdir`), every other entry never. */
  lemma SuccessfulExactlyOnce(w: World, folder: string, entries: seq<string>, file: string)
    ensures multiset(Successful(w, folder, entries))[file] ==
      if Succeeds(w, folder, file) then multiset(entries)[file] else 0
  {
    Seqs.FilterCount(entries, SucceedsIn(w, folder), file);
  }

  /** An entry that is not a spreadsheet name changes neither list nor the disk. */
  lemma NonExcelEntryIgnored(w: World, folder: string, entries: seq<string>, file: string, disk0: Disk)
    requires !IsExcelName(file)
    ensures ExcelRun(w, folder, entries + [file], disk0) == ExcelRun(w, folder, entries, disk0)
  {
    assert (entries + [file])[..|entries|] == entries;
  }

  /** An entry that fails appends to neither list. */
  lemma FailedEntryAppendsNothing(w: World, folder: string, entries: seq<string>, file: string, disk0: Disk)
    requires !Succeeds(w, folder, file)
    ensures ExcelRun(w, folder, entries + [file], disk0).raw == ExcelRun(w, folder, entries, disk0).raw
    ensures ExcelRun(w, folder, entries + [file], disk0).clean == ExcelRun(w, folder, entries, disk0).clean
  {
    assert (entries + [file])[..|entries|] == entries;
  }

  /** A failing entry does not stop the entries after it from being processed. */
  lemma FailureDoesNotStopOthers(w: World, folder: string, before: seq<string>, file: string, after: seq<string>)
    requires !Succeeds(w, folder, file)
    ensures Successful(w, folder, before + [file] + after) == Successful(w, folder, before) + Successful(w, folder, after)
  {
    var p := SucceedsIn(w, folder);
    Seqs.FilterAppend(before + [file], after, p);
    Seqs.FilterAppend(before, [file], p);
    assert Seqs.Filter([file], p) == [];
  }

  /** The disk keeps every file it had, and every returned path names a file on it. */
  lemma {:induction false} ExcelRunDisk(w: World, folder: string, entries: seq<string>, disk0: Disk)
    ensures var st := ExcelRun(w, folder, entries, disk0);
      && disk0.Keys <= st.disk.Keys
      && (forall p :: p in st.raw ==> p in st.disk)
      && (forall p :: p in st.clean ==> p in st.disk)
    decreases |entries|
  {
    if entries != [] {
      var before := ExcelRun(w, folder, entries[..|entries| - 1], disk0);
      ExcelRunDisk(w, folder, entries[..|entries| - 1], disk0);
      ProcessEntryDisk(w, folder, entries[|entries| - 1], before.disk);
    }
  }

  /**
   * A later run over a listing that differs only in non-spreadsheet entries
   * (for instance the parquet twins the earlier run wrote) selects the same
   * files in the same order.
   */
  lemma RerunSelectsSameFiles(w: World, folder: string, before: seq<string>, after: seq<string>)
    requires Seqs.Filter(after, IsExcelName) == Seqs.Filter(before, IsExcelName)
    ensures Successful(w, folder, after) == Successful(w, folder, before)
  {
    var q := SucceedsIn(w, folder);
    assert forall x :: q(x) ==> IsExcelName(x);
    Seqs.FilterNested(after, IsExcelName, q);
    Seqs.FilterNested(before, IsExcelName, q);
  }

  /**
   * No twin name of an entry the run processed is a spreadsheet name, so
   * adding the twins a run wrote to its folder listing does not change what
   * is selected.
   */
  lemma TwinsAreNotReselected(w: World, folder: string, entries: seq<string>)
    ensures forall f :: f in Successful(w, folder, entries) ==> !IsExcelName(RawName(f)) && !IsExcelName(CleanName(f))
  {
    forall f | f in Successful(w, folder, entries) ensures !IsExcelName(RawName(f)) && !IsExcelName(CleanName(f)) {
      assert SucceedsIn(w, folder)(f);
      DerivedNameNotExcel(f, RawSuffix);
      DerivedNameNotExcel(f, CleanSuffix);
    }
  }

  /**
   * The loop reads only the spreadsheets and the write failures of the world:
   * neither the folder listings nor the upload refusals change it.
   */
  lemma {:induction false} ExcelRunReadsSheetsAndWrites(w: World, w2: World, folder: string, entries: seq<string>, disk0: Disk)
    requires w2.sheets == w.sheets && w2.failedWrites == w.failedWrites
    ensures ExcelRun(w2, folder, entries, disk0) == ExcelRun(w, folder, entries, disk0)
    decreases |entries|
  {
    if entries != [] {
      ExcelRunReadsSheetsAndWrites(w, w2, folder, entries[..|entries| - 1], disk0);
    }
  }
}
