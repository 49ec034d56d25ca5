/**
 * `main` and `upload_to_blob`: connect to both containers, extract and upload
 * the SQL table, extract the spreadsheets and upload every raw twin to the raw
 * container and every clean twin to the cleaned one, under `excel/<basename>`.
 */
module Pipeline {
  import opened Wrappers
  import opened PyStrings
  import opened Tables
  import opened Naming
  import opened Environment
  import opened SqlExtraction
  import opened ExcelExtraction
  import Seqs

  const ExcelFolder := "./excels"
  const SqlQuery := "SELECT * FROM tu_tabla"
  const SqlTable := "sql_table"
  const SqlRawDest := "sql/sql_table_raw.parquet"
  const SqlCleanDest := "sql/sql_table_clean.parquet"
  const ExcelPrefix := "excel/"

  /** One call of `upload_to_blob(local_path, blob_name, container)`. */
  datatype Upload = Upload(local: string, dest: string, container: Container)

  /**
   * What a run leaves behind: the upload calls in the order they were made,
   * the blobs, the local disk, and whether the outer `except` ("Fallo general") ran.
   */
  datatype RunOutcome = RunOutcome(attempts: seq<Upload>, blobs: Blobs, disk: Disk, generalFailure: bool)

  /** Opening the local file and the upload itself both succeed. */
  predicate UploadSucceeds(w: World, disk: Disk, u: Upload)
  {
    u.local in disk && (u.container, u.dest) !in w.rejected
  }

  /**
   * `upload_to_blob`: overwrites the blob on success; on any failure it only
   * logs, so it always returns and the storage is left as it was.
   */
  function UploadToBlob(w: World, disk: Disk, blobs: Blobs, u: Upload): (b: Blobs)
    ensures UploadSucceeds(w, disk, u) ==> b == blobs[(u.container, u.dest) := disk[u.local]]
    ensures !UploadSucceeds(w, disk, u) ==> b == blobs
  {
    if u.local in disk && (u.container, u.dest) !in w.rejected then blobs[(u.container, u.dest) := disk[u.local]]
    else blobs
  }

  /** A sequence of upload calls, first to last. */
  function ApplyUploads(w: World, disk: Disk, blobs: Blobs, us: seq<Upload>): Blobs
    decreases |us|
  {
    if us == [] then blobs
    else UploadToBlob(w, disk, ApplyUploads(w, disk, blobs, us[..|us| - 1]), us[|us| - 1])
  }

  lemma ApplyTwoUploads(w: World, disk: Disk, blobs: Blobs, u1: Upload, u2: Upload)
    ensures ApplyUploads(w, disk, blobs, [u1, u2]) == UploadToBlob(w, disk, UploadToBlob(w, disk, blobs, u1), u2)
  {
    assert [u1, u2][..1] == [u1];
    assert [u1][..0] == [];
    assert ApplyUploads(w, disk, blobs, [u1]) == UploadToBlob(w, disk, ApplyUploads(w, disk, blobs, []), u1);
  }

  /** The upload of one spreadsheet twin: from its path, to `excel/` followed by its basename. */
  function ExcelUpload(path: string, c: Container): Upload
  {
    Upload(path, ExcelPrefix + Basename(path), c)
  }

  function ExcelUploads(paths: seq<string>, c: Container): seq<Upload>
  {
    seq(|paths|, k requires 0 <= k < |paths| => ExcelUpload(paths[k], c))
  }

  /** Every spreadsheet upload goes to the given container under the `excel/` prefix. */
  lemma ExcelUploadsShape(paths: seq<string>, c: Container)
    ensures forall u :: u in ExcelUploads(paths, c) ==>
      && u.container == c && u.local in paths
      && |u.dest| >= |ExcelPrefix| && u.dest[..|ExcelPrefix|] == ExcelPrefix
      && u.dest != [] && u.dest[0] == 'e'
  {
    forall u | u in ExcelUploads(paths, c)
      ensures u.container == c && u.local in paths
      ensures |u.dest| >= |ExcelPrefix| && u.dest[..|ExcelPrefix|] == ExcelPrefix
      ensures u.dest != [] && u.dest[0] == 'e'
    {
      var k :| 0 <= k < |paths| && ExcelUploads(paths, c)[k] == u;
    }
  }

  /** The SQL uploads, made only when both returned names are truthy. */
  function SqlUploads(sql: SqlResult): seq<Upload>
  {
    if Truthy(sql.raw) && Truthy(sql.clean) then
      [Upload(sql.raw.value, SqlRawDest, RawContainer), Upload(sql.clean.value, SqlCleanDest, CleanedContainer)]
    else []
  }

  /** The upload calls of one part of the run, the blobs after them and the local disk they read from. */
  datatype Phase = Phase(attempts: seq<Upload>, blobs: Blobs, disk: Disk)

  /** `extract_sql_data(...)` followed by the two guarded SQL uploads. */
  function SqlPhase(w: World, disk0: Disk, blobs0: Blobs): Phase
  {
    var sql := ExtractSqlData(w, disk0, SqlQuery, SqlTable);
    var ups := SqlUploads(sql);
    Phase(ups, ApplyUploads(w, sql.disk, blobs0, ups), sql.disk)
  }

  /** The two upload loops over the lists `extract_excel_files` returned. */
  function ExcelPhase(w: World, st: ExcelState, blobs1: Blobs): Phase
  {
    var ups := ExcelUploads(st.raw, RawContainer) + ExcelUploads(st.clean, CleanedContainer);
    Phase(ups, ApplyUploads(w, st.disk, blobs1, ups), st.disk)
  }

  /** The whole run, as a function of the world and the initial local and remote state. */
  function Run(w: World, disk0: Disk, blobs0: Blobs): RunOutcome
  {
    if !w.containersUp then RunOutcome([], blobs0, disk0, true)
    else
      var p1 := SqlPhase(w, disk0, blobs0);
      if ExcelFolder !in w.folders then RunOutcome(p1.attempts, p1.blobs, p1.disk, true)
      else
        var p2 := ExcelPhase(w, ExcelRun(w, ExcelFolder, w.folders[ExcelFolder], p1.disk), p1.blobs);
        RunOutcome(p1.attempts + p2.attempts, p2.blobs, p2.disk, false)
  }

  /**
   * The model of `main()`. The outer `except` is reached only when the
   * containers cannot be connected or the spreadsheet folder cannot be listed.
   */
  method RunMain(w: World, disk0: Disk, blobs0: Blobs) returns (out: RunOutcome)
    ensures out == Run(w, disk0, blobs0)
    ensures out.generalFailure <==> !w.containersUp || ExcelFolder !in w.folders
    ensures !w.containersUp ==> out.attempts == [] && out.blobs == blobs0 && out.disk == disk0
  {
    if !w.containersUp {
      return RunOutcome([], blobs0, disk0, true);
    }
    var sqlPart := ExtractAndUploadSql(w, disk0, blobs0);
    var excel := ExtractExcelFiles(w, ExcelFolder, sqlPart.disk);
    if excel.ListingFailed? {
      return RunOutcome(sqlPart.attempts, sqlPart.blobs, sqlPart.disk, true);
    }
    var excelPart := UploadExcelFiles(w, excel.raw, excel.clean, excel.disk, sqlPart.blobs);
    return RunOutcome(sqlPart.attempts + excelPart.attempts, excelPart.blobs, excelPart.disk, false);
  }

  /** The SQL part of `main`: extract, then upload both files only if both names came back. */
  method ExtractAndUploadSql(w: World, disk0: Disk, blobs0: Blobs) returns (p: Phase)
    ensures p == SqlPhase(w, disk0, blobs0)
    ensures |p.attempts| == if SqlSucceeds(w, SqlQuery) then 2 else 0
  {
    var attempts: seq<Upload> := [];
    var blobs := blobs0;
    var sql := ExtractSqlData(w, disk0, SqlQuery, SqlTable);
    if Truthy(sql.raw) && Truthy(sql.clean) {
      var u := Upload(sql.raw.value, SqlRawDest, RawContainer);
      blobs := UploadToBlob(w, sql.disk, blobs, u);
      attempts := attempts + [u];
      u := Upload(sql.clean.value, SqlCleanDest, CleanedContainer);
      blobs := UploadToBlob(w, sql.disk, blobs, u);
      attempts := attempts + [u];
      ApplyTwoUploads(w, sql.disk, blobs0, attempts[0], attempts[1]);
    }
    if SqlSucceeds(w, SqlQuery) {
      SqlFilesWritten(w, disk0, SqlQuery, SqlTable);
    }
    p := Phase(attempts, blobs, sql.disk);
  }

  /** The spreadsheet part of `main`: every raw path, then every clean path. */
  method UploadExcelFiles(w: World, raw: seq<string>, clean: seq<string>, disk: Disk, blobs1: Blobs) returns (p: Phase)
    ensures p == ExcelPhase(w, ExcelState(raw, clean, disk), blobs1)
    ensures |p.attempts| == |raw| + |clean|
  {
    var rawUps, cleanUps, blobs;
    rawUps, blobs := UploadAll(w, disk, blobs1, raw, RawContainer);
    cleanUps, blobs := UploadAll(w, disk, blobs, clean, CleanedContainer);
    ApplyUploadsAppend(w, disk, blobs1, rawUps, cleanUps);
    p := Phase(rawUps + cleanUps, blobs, disk);
  }

  /**
   * One of the two upload loops over the lists `extract_excel_files` returned:
   * one call per path, in order, none of which can stop the loop.
   */
  method UploadAll(w: World, disk: Disk, blobs0: Blobs, paths: seq<string>, c: Container) returns (calls: seq<Upload>, blobs: Blobs)
    ensures calls == ExcelUploads(paths, c)
    ensures blobs == ApplyUploads(w, disk, blobs0, calls)
  {
    calls, blobs := [], blobs0;
    for i := 0 to |paths|
      invariant calls == ExcelUploads(paths[..i], c)
      invariant blobs == ApplyUploads(w, disk, blobs0, calls)
    {
      var path := paths[i];
      var u := Upload(path, ExcelPrefix + Basename(path), c);
      ExcelUploadsSnoc(paths, i, c);
      ApplyUploadsSnoc(w, disk, blobs0, calls, u);
      blobs := UploadToBlob(w, disk, blobs, u);
      calls := calls + [u];
    }
    assert paths[..|paths|] == paths;
  }

  lemma ExcelUploadsSnoc(paths: seq<string>, i: nat, c: Container)
    requires i < |paths|
    ensures ExcelUploads(paths[..i + 1], c) == ExcelUploads(paths[..i], c) + [ExcelUpload(paths[i], c)]
  {
  }

  lemma ApplyUploadsSnoc(w: World, disk: Disk, blobs: Blobs, us: seq<Upload>, u: Upload)
    ensures ApplyUploads(w, disk, blobs, us + [u]) == UploadToBlob(w, disk, ApplyUploads(w, disk, blobs, us), u)
  {
    assert (us + [u])[..|us|] == us;
  }

  /** Uploading `xs` and then `ys` is uploading `xs + ys`. */
  lemma {:induction false} ApplyUploadsAppend(w: World, disk: Disk, blobs: Blobs, xs: seq<Upload>, ys: seq<Upload>)
    ensures ApplyUploads(w, disk, ApplyUploads(w, disk, blobs, xs), ys) == ApplyUploads(w, disk, blobs, xs + ys)
    decreases |ys|
  {
    if ys == [] {
      assert xs + ys == xs;
    } else {
      var init := ys[..|ys| - 1];
      assert (xs + ys)[..|xs + ys| - 1] == xs + init;
      assert (xs + ys)[|xs + ys| - 1] == ys[|ys| - 1];
      ApplyUploadsAppend(w, disk, blobs, xs, init);
    }
  }

  /** An upload that no call targets leaves that blob as it was. */
  lemma {:induction false} ApplyUploadsFrame(w: World, disk: Disk, blobs: Blobs, us: seq<Upload>, key: (Container, string))
    requires forall u :: u in us ==> (u.container, u.dest) != key
    ensures key in ApplyUploads(w, disk, blobs, us) <==> key in blobs
    ensures key in blobs ==> ApplyUploads(w, disk, blobs, us)[key] == blobs[key]
    decreases |us|
  {
    if us != [] {
      assert us[|us| - 1] in us;
      assert forall u :: u in us[..|us| - 1] ==> u in us;
      ApplyUploadsFrame(w, disk, blobs, us[..|us| - 1], key);
    }
  }

  /** The SQL files are uploaded, first and to their fixed names, exactly when `extract_sql_data` returned both paths. */
  lemma SqlUploadsOnlyWhenExtracted(w: World, disk0: Disk, blobs0: Blobs)
    requires w.containersUp
    ensures var a := Run(w, disk0, blobs0).attempts;
      var sql := ExtractSqlData(w, disk0, SqlQuery, SqlTable);
      && (Upload(SqlTable + RawSuffix, SqlRawDest, RawContainer) in a <==> sql.raw.Some?)
      && (Upload(SqlTable + CleanSuffix, SqlCleanDest, CleanedContainer) in a <==> sql.clean.Some?)
      && (sql.raw.Some? ==> a[..2] == [Upload(SqlTable + RawSuffix, SqlRawDest, RawContainer),
                                      Upload(SqlTable + CleanSuffix, SqlCleanDest, CleanedContainer)])
  {
    var sql := ExtractSqlData(w, disk0, SqlQuery, SqlTable);
    var sqlUps := SqlUploads(sql);
    var ru := Upload(SqlTable + RawSuffix, SqlRawDest, RawContainer);
    var cu := Upload(SqlTable + CleanSuffix, SqlCleanDest, CleanedContainer);
    if sql.raw.Some? {
      SqlFilesWritten(w, disk0, SqlQuery, SqlTable);
      assert sqlUps == [ru, cu];
    } else {
      assert sqlUps == [];
    }
    assert ru.dest[0] == 's' && cu.dest[0] == 's';
    RunAttempts(w, disk0, blobs0);
    if ExcelFolder in w.folders {
      var st := ExcelRun(w, ExcelFolder, w.folders[ExcelFolder], sql.disk);
      var rawUps := ExcelUploads(st.raw, RawContainer);
      var cleanUps := ExcelUploads(st.clean, CleanedContainer);
      ExcelUploadsShape(st.raw, RawContainer);
      ExcelUploadsShape(st.clean, CleanedContainer);
      FirstUploads(sqlUps, rawUps + cleanUps, ru);
      FirstUploads(sqlUps, rawUps + cleanUps, cu);
    }
  }

  /** Calls made before a batch of `excel/` uploads are found first, and only there, when their own destination is elsewhere. */
  lemma FirstUploads(first: seq<Upload>, rest: seq<Upload>, u: Upload)
    requires forall x :: x in rest ==> x.dest != [] && x.dest[0] == 'e'
    requires u.dest != [] && u.dest[0] != 'e'
    ensures u in first + rest <==> u in first
    ensures (first + rest)[..|first|] == first
  {
  }

  /**
   * After the first n calls come 2 * |ok| calls: the raw twin of each entry
   * of `ok` to the raw container, in order, then the clean twin of each to
   * the cleaned container, each under `excel/` followed by the twin's name.
   */
  ghost predicate RoutedAfter(a: seq<Upload>, n: nat, ok: seq<string>)
  {
    && |a| == n + 2 * |ok|
    && forall k :: 0 <= k < |ok| ==>
      && a[n + k] == Upload(RawPath(ExcelFolder, ok[k]), ExcelPrefix + RawName(ok[k]), RawContainer)
      && a[n + |ok| + k] == Upload(CleanPath(ExcelFolder, ok[k]), ExcelPrefix + CleanName(ok[k]), CleanedContainer)
  }

  /**
   * Every successfully processed spreadsheet is uploaded twice, in listing
   * order: its raw twin to the raw container and then, after all raw twins,
   * its clean twin to the cleaned container, each under `excel/` + its twin's name.
   */
  lemma ExcelUploadsRouted(w: World, disk0: Disk, blobs0: Blobs)
    requires w.containersUp && ExcelFolder in w.folders
    requires forall f :: f in w.folders[ExcelFolder] ==> '/' !in f
    ensures RoutedAfter(Run(w, disk0, blobs0).attempts, |SqlUploads(ExtractSqlData(w, disk0, SqlQuery, SqlTable))|,
                        Successful(w, ExcelFolder, w.folders[ExcelFolder]))
  {
    var listing := w.folders[ExcelFolder];
    var sql := ExtractSqlData(w, disk0, SqlQuery, SqlTable);
    var st := ExcelRun(w, ExcelFolder, listing, sql.disk);
    RunAttempts(w, disk0, blobs0);
    ExcelRunLists(w, ExcelFolder, listing, sql.disk);
    var ok := Successful(w, ExcelFolder, listing);
    assert forall f :: f in ok ==> f in listing;
    RoutedPositions(Run(w, disk0, blobs0).attempts, SqlUploads(sql), st.raw, st.clean, ok);
  }

  /** Positions of the twin uploads after the SQL ones, given lists paired with the successful entries. */
  lemma RoutedPositions(a: seq<Upload>, sqlUps: seq<Upload>, raw: seq<string>, clean: seq<string>, ok: seq<string>)
    requires a == sqlUps + (ExcelUploads(raw, RawContainer) + ExcelUploads(clean, CleanedContainer))
    requires PairedTwins(ExcelFolder, raw, clean, ok)
    requires forall f :: f in ok ==> '/' !in f
    ensures RoutedAfter(a, |sqlUps|, ok)
  {
    var rawUps := ExcelUploads(raw, RawContainer);
    var cleanUps := ExcelUploads(clean, CleanedContainer);
    var n := |sqlUps|;
    forall k | 0 <= k < |ok|
      ensures a[n + k] == Upload(RawPath(ExcelFolder, ok[k]), ExcelPrefix + RawName(ok[k]), RawContainer)
      ensures a[n + |ok| + k] == Upload(CleanPath(ExcelFolder, ok[k]), ExcelPrefix + CleanName(ok[k]), CleanedContainer)
    {
      var f := ok[k];
      assert raw[k] == RawPath(ExcelFolder, f) && clean[k] == CleanPath(ExcelFolder, f);
      assert rawUps[k] == ExcelUpload(raw[k], RawContainer);
      assert cleanUps[k] == ExcelUpload(clean[k], CleanedContainer);
      IndexAfter(sqlUps, rawUps, cleanUps, k);
      assert f in ok;
      TwinUploads(ExcelFolder, f, raw[k], clean[k]);
    }
  }

  /** Indexing past a prefix, into the first or the second of two following parts. */
  lemma IndexAfter<T>(s: seq<T>, x: seq<T>, y: seq<T>, k: nat)
    requires k < |x| && k < |y|
    ensures (s + (x + y))[|s| + k] == x[k]
    ensures (s + (x + y))[|s| + |x| + k] == y[k]
  {
  }

  /** The two uploads of one entry's twins, by the entry's own names. */
  lemma TwinUploads(folder: string, file: string, raw: string, clean: string)
    requires '/' !in file
    requires raw == RawPath(folder, file) && clean == CleanPath(folder, file)
    ensures ExcelUpload(raw, RawContainer) == Upload(RawPath(folder, file), ExcelPrefix + RawName(file), RawContainer)
    ensures ExcelUpload(clean, CleanedContainer) == Upload(CleanPath(folder, file), ExcelPrefix + CleanName(file), CleanedContainer)
  {
    TwinBasenames(folder, file);
  }

  /** When both containers are up and the folder can be listed, the calls are the SQL ones, every raw twin, every clean twin. */
  lemma RunAttempts(w: World, disk0: Disk, blobs0: Blobs)
    requires w.containersUp
    ensures var sql := ExtractSqlData(w, disk0, SqlQuery, SqlTable);
      ExcelFolder !in w.folders ==> Run(w, disk0, blobs0).attempts == SqlUploads(sql)
    ensures var sql := ExtractSqlData(w, disk0, SqlQuery, SqlTable);
      ExcelFolder in w.folders ==>
      var st := ExcelRun(w, ExcelFolder, w.folders[ExcelFolder], sql.disk);
      Run(w, disk0, blobs0).attempts == SqlUploads(sql) + (ExcelUploads(st.raw, RawContainer) + ExcelUploads(st.clean, CleanedContainer))
  {
  }

  /** The blob name of a twin is `excel/` followed by the twin's own name, when the entry has no slash. */
  lemma TwinBasenames(folder: string, file: string)
    requires '/' !in file
    ensures Basename(RawPath(folder, file)) == RawName(file)
    ensures Basename(CleanPath(folder, file)) == CleanName(file)
  {
    DerivedNameHasNoSlash(file, RawSuffix);
    DerivedNameHasNoSlash(file, CleanSuffix);
    BasenameJoin(folder, RawName(file));
    BasenameJoin(folder, CleanName(file));
  }

  /** Every raw twin path ends with the raw suffix only, every clean twin path with the clean suffix only. */
  lemma TwinPathSuffixes(w: World, folder: string, entries: seq<string>, disk0: Disk)
    ensures var st := ExcelRun(w, folder, entries, disk0);
      && (forall p :: p in st.raw ==> EndsWith(p, RawSuffix) && !EndsWith(p, CleanSuffix))
      && (forall p :: p in st.clean ==> EndsWith(p, CleanSuffix) && !EndsWith(p, RawSuffix))
  {
    var st := ExcelRun(w, folder, entries, disk0);
    var ok := Successful(w, folder, entries);
    ExcelRunLists(w, folder, entries, disk0);
    forall p | p in st.raw ensures EndsWith(p, RawSuffix) && !EndsWith(p, CleanSuffix) {
      var k :| 0 <= k < |st.raw| && st.raw[k] == p;
      assert ok[k] in ok;
      RawAndCleanPathsDiffer(folder, ok[k]);
      SuffixesExclusive(p);
    }
    forall p | p in st.clean ensures EndsWith(p, CleanSuffix) && !EndsWith(p, RawSuffix) {
      var k :| 0 <= k < |st.clean| && st.clean[k] == p;
      assert ok[k] in ok;
      RawAndCleanPathsDiffer(folder, ok[k]);
      SuffixesExclusive(p);
    }
  }

  /** Every call in `us` goes to the raw container exactly when its local file is a raw twin, and likewise for clean. */
  ghost predicate ContainersMatch(us: seq<Upload>)
  {
    forall u :: u in us ==>
      && (u.container == RawContainer <==> EndsWith(u.local, RawSuffix))
      && (u.container == CleanedContainer <==> EndsWith(u.local, CleanSuffix))
  }

  /** Whatever the outcome, an upload goes to the raw container exactly when its local file is a raw twin. */
  lemma ContainerMatchesSuffix(w: World, disk0: Disk, blobs0: Blobs)
    ensures ContainersMatch(Run(w, disk0, blobs0).attempts)
  {
    if w.containersUp {
      var sql := ExtractSqlData(w, disk0, SqlQuery, SqlTable);
      var sqlUps := SqlUploads(sql);
      SqlUploadsMatch(sql);
      RunAttempts(w, disk0, blobs0);
      if ExcelFolder in w.folders {
        var st := ExcelRun(w, ExcelFolder, w.folders[ExcelFolder], sql.disk);
        TwinPathSuffixes(w, ExcelFolder, w.folders[ExcelFolder], sql.disk);
        var rawUps := ExcelUploads(st.raw, RawContainer);
        var cleanUps := ExcelUploads(st.clean, CleanedContainer);
        ExcelUploadsShape(st.raw, RawContainer);
        ExcelUploadsShape(st.clean, CleanedContainer);
        assert ContainersMatch(rawUps);
        assert ContainersMatch(cleanUps);
        ContainersMatchConcat(rawUps, cleanUps);
        ContainersMatchConcat(sqlUps, rawUps + cleanUps);
      }
    }
  }

  lemma SqlUploadsMatch(sql: SqlResult)
    requires sql.raw.Some? ==> sql.raw.value == SqlTable + RawSuffix && sql.clean.Some? && sql.clean.value == SqlTable + CleanSuffix
    ensures ContainersMatch(SqlUploads(sql))
  {
    assert EndsWith(SqlTable + RawSuffix, RawSuffix);
    assert EndsWith(SqlTable + CleanSuffix, CleanSuffix);
    SuffixesExclusive(SqlTable + RawSuffix);
    SuffixesExclusive(SqlTable + CleanSuffix);
  }

  lemma ContainersMatchConcat(xs: seq<Upload>, ys: seq<Upload>)
    requires ContainersMatch(xs) && ContainersMatch(ys)
    ensures ContainersMatch(xs + ys)
  {
  }

  /**
   * `upload_to_blob` never propagates a failure: whichever uploads the storage
   * service refuses, the same uploads are attempted, in the same order, and
   * the run ends the same way.
   */
  lemma UploadFailuresNeverStopTheRun(w: World, rejected: set<(Container, string)>, disk0: Disk, blobs0: Blobs)
    ensures var r1 := Run(w, disk0, blobs0);
      var r2 := Run(w.(rejected := rejected), disk0, blobs0);
      r2.attempts == r1.attempts && r2.disk == r1.disk && r2.generalFailure == r1.generalFailure
  {
    if w.containersUp && ExcelFolder in w.folders {
      var sql := ExtractSqlData(w, disk0, SqlQuery, SqlTable);
      ExcelRunReadsSheetsAndWrites(w, w.(rejected := rejected), ExcelFolder, w.folders[ExcelFolder], sql.disk);
    }
  }

  /**
   * End to end: when the SQL extraction and both SQL uploads succeed, the raw
   * container holds the query's result and the cleaned container its complete
   * rows; the spreadsheet uploads never overwrite them.
   */
  lemma SqlBlobsHoldExtract(w: World, disk0: Disk, blobs0: Blobs)
    requires w.containersUp && SqlSucceeds(w, SqlQuery)
    requires (RawContainer, SqlRawDest) !in w.rejected && (CleanedContainer, SqlCleanDest) !in w.rejected
    ensures var b := Run(w, disk0, blobs0).blobs;
      && (RawContainer, SqlRawDest) in b && b[(RawContainer, SqlRawDest)] == w.db[SqlQuery]
      && (CleanedContainer, SqlCleanDest) in b && b[(CleanedContainer, SqlCleanDest)] == Clean(w.db[SqlQuery])
  {
    var sql := ExtractSqlData(w, disk0, SqlQuery, SqlTable);
    SqlFilesWritten(w, disk0, SqlQuery, SqlTable);
    var sqlUps := SqlUploads(sql);
    var u1 := Upload(SqlTable + RawSuffix, SqlRawDest, RawContainer);
    var u2 := Upload(SqlTable + CleanSuffix, SqlCleanDest, CleanedContainer);
    assert sqlUps == [u1, u2];
    ApplyTwoUploads(w, sql.disk, blobs0, u1, u2);
    var blobs1 := ApplyUploads(w, sql.disk, blobs0, sqlUps);
    assert SqlRawDest != SqlCleanDest;
    assert blobs1 == blobs0[(RawContainer, SqlRawDest) := w.db[SqlQuery]][(CleanedContainer, SqlCleanDest) := Clean(w.db[SqlQuery])];
    if ExcelFolder in w.folders {
      var st := ExcelRun(w, ExcelFolder, w.folders[ExcelFolder], sql.disk);
      var ups := ExcelUploads(st.raw, RawContainer) + ExcelUploads(st.clean, CleanedContainer);
      ExcelUploadsShape(st.raw, RawContainer);
      ExcelUploadsShape(st.clean, CleanedContainer);
      assert forall u :: u in ups ==> u.dest[0] == 'e';
      assert SqlRawDest[0] == 's' && SqlCleanDest[0] == 's';
      ApplyUploadsFrame(w, st.disk, blobs1, ups, (RawContainer, SqlRawDest));
      ApplyUploadsFrame(w, st.disk, blobs1, ups, (CleanedContainer, SqlCleanDest));
    }
  }
}
