/**
 * Running the script a second time, over the state the first run left
 * behind. The second listing of `./excels` also shows the parquet twins the
 * first run wrote there; they are not spreadsheet names, so the second run
 * makes the same calls, writes the same files and uploads the same blobs,
 * and nothing changes.
 */
module Rerun {
  import opened PyStrings
  import opened Tables
  import opened Naming
  import opened Environment
  import opened SqlExtraction
  import opened ExcelExtraction
  import opened Pipeline
  import Seqs
  import Maps

  /** One loop iteration on top of an existing disk writes what it writes on an empty one. */
  lemma StepOverlay(w: World, folder: string, raw: seq<string>, clean: seq<string>, d: Disk, m: Disk, file: string)
    ensures var s := Step(ExcelState(raw, clean, m), ProcessEntry(w, folder, file, m));
      Step(ExcelState(raw, clean, d + m), ProcessEntry(w, folder, file, d + m)) == ExcelState(s.raw, s.clean, d + s.disk)
  {
    var filePath := Join(folder, file);
    if IsExcelName(file) && filePath in w.sheets {
      var df := w.sheets[filePath];
      Maps.OverlayUpdate(d, m, RawPath(folder, file), df);
      Maps.OverlayUpdate(d, m[RawPath(folder, file) := df], CleanPath(folder, file), Clean(df));
    }
  }

  /** The spreadsheet loop lays the same writes over any initial disk, and returns the same lists. */
  lemma {:induction false} ExcelRunOverlay(w: World, folder: string, entries: seq<string>, d: Disk)
    ensures var e := ExcelRun(w, folder, entries, map[]);
      ExcelRun(w, folder, entries, d) == ExcelState(e.raw, e.clean, d + e.disk)
    decreases |entries|
  {
    if entries == [] {
      assert d + map[] == d;
    } else {
      var init, last := entries[..|entries| - 1], entries[|entries| - 1];
      ExcelRunOverlay(w, folder, init, d);
      var e := ExcelRun(w, folder, init, map[]);
      StepOverlay(w, folder, e.raw, e.clean, d, e.disk, last);
    }
  }

  /** Running the spreadsheet loop again over the disk it produced changes nothing. */
  lemma ExcelRunTwice(w: World, folder: string, entries: seq<string>, d: Disk)
    ensures var st := ExcelRun(w, folder, entries, d);
      ExcelRun(w, folder, entries, st.disk) == st
  {
    var st := ExcelRun(w, folder, entries, d);
    var e := ExcelRun(w, folder, entries, map[]);
    ExcelRunOverlay(w, folder, entries, d);
    ExcelRunOverlay(w, folder, entries, st.disk);
    Maps.OverlayTwice(d, e.disk);
  }

  /** The loop ignores every entry that is not a spreadsheet name. */
  lemma {:induction false} ExcelRunSpreadsheetsOnly(w: World, folder: string, entries: seq<string>, d: Disk)
    ensures ExcelRun(w, folder, entries, d) == ExcelRun(w, folder, Seqs.Filter(entries, IsExcelName), d)
    decreases |entries|
  {
    if entries != [] {
      var init, last := entries[..|entries| - 1], entries[|entries| - 1];
      assert entries == init + [last];
      ExcelRunSpreadsheetsOnly(w, folder, init, d);
      var kept := Seqs.Filter(init, IsExcelName);
      var before := ExcelRun(w, folder, init, d);
      var o := ProcessEntry(w, folder, last, before.disk);
      assert ExcelRun(w, folder, entries, d) == Step(before, o);
      Seqs.FilterAppend(init, [last], IsExcelName);
      Seqs.FilterSingleton(last, IsExcelName);
      if IsExcelName(last) {
        assert Seqs.Filter(entries, IsExcelName) == kept + [last];
        assert (kept + [last])[..|kept|] == kept;
        assert ExcelRun(w, folder, kept + [last], d) == Step(ExcelRun(w, folder, kept, d), o);
      } else {
        assert o == Ignored;
        assert Seqs.Filter(entries, IsExcelName) == kept;
      }
    }
  }

  /** A path that starts with `.` or `/`: every spreadsheet twin does, as a path joined to `./excels`, and no SQL file does. */
  predicate DotOrSlashPath(p: string)
  {
    p != [] && (p[0] == '.' || p[0] == '/')
  }

  lemma JoinExcelFolder(x: string)
    ensures DotOrSlashPath(Join(ExcelFolder, x))
  {
  }

  /**
   * The twins of a slash-free spreadsheet entry lie directly under
   * `./excels/`: the folder, a `/`, and the slash-free derived name.
   */
  lemma TwinsUnderExcelFolder(file: string)
    requires IsExcelName(file) && '/' !in file
    ensures var folder := ExcelFolder + "/";
      && RawPath(ExcelFolder, file) == folder + RawName(file)
      && CleanPath(ExcelFolder, file) == folder + CleanName(file)
      && '/' !in RawName(file) && '/' !in CleanName(file)
  {
    DerivedNameHasNoSlash(file, RawSuffix);
    DerivedNameHasNoSlash(file, CleanSuffix);
    DerivedNameEndsWithSuffix(file, RawSuffix);
    DerivedNameEndsWithSuffix(file, CleanSuffix);
    var r, c := RawName(file), CleanName(file);
    assert r != [] && r[0] in r;
    assert c != [] && c[0] in c;
  }

  /** Everything the spreadsheet loop writes starts with `.` or `/`, so it is never one of the SQL files. */
  lemma {:induction false} ExcelWritesInFolder(w: World, entries: seq<string>)
    ensures forall p :: p in ExcelRun(w, ExcelFolder, entries, map[]).disk ==> DotOrSlashPath(p)
    decreases |entries|
  {
    if entries != [] {
      var init, last := entries[..|entries| - 1], entries[|entries| - 1];
      ExcelWritesInFolder(w, init);
      var before := ExcelRun(w, ExcelFolder, init, map[]);
      ProcessEntryDisk(w, ExcelFolder, last, before.disk);
      JoinExcelFolder(RawName(last));
      JoinExcelFolder(CleanName(last));
    }
  }

  /** `extract_sql_data` lays the same writes over any disk, and returns the same names. */
  lemma SqlOverlay(w: World, d: Disk)
    ensures var e := ExtractSqlData(w, map[], SqlQuery, SqlTable);
      ExtractSqlData(w, d, SqlQuery, SqlTable) == SqlResult(e.raw, e.clean, d + e.disk)
    ensures forall p :: p in ExtractSqlData(w, map[], SqlQuery, SqlTable).disk ==> !DotOrSlashPath(p)
  {
    if SqlQuery in w.db {
      var df := w.db[SqlQuery];
      Maps.OverlayUpdate(d, map[], SqlTable + RawSuffix, df);
      Maps.OverlayUpdate(d, map[SqlTable + RawSuffix := df], SqlTable + CleanSuffix, Clean(df));
    } else {
      assert d + map[] == d;
    }
  }

  /** A sequence of uploads lays the same blobs over any initial storage. */
  lemma {:induction false} ApplyUploadsOverlay(w: World, disk: Disk, b: Blobs, us: seq<Upload>)
    ensures ApplyUploads(w, disk, b, us) == b + ApplyUploads(w, disk, map[], us)
    decreases |us|
  {
    if us == [] {
      assert b + map[] == b;
    } else {
      var init, u := us[..|us| - 1], us[|us| - 1];
      ApplyUploadsOverlay(w, disk, b, init);
      if UploadSucceeds(w, disk, u) {
        Maps.OverlayUpdate(b, ApplyUploads(w, disk, map[], init), (u.container, u.dest), disk[u.local]);
      }
    }
  }

  /** Uploading the same files again over the storage they produced changes nothing. */
  lemma ApplyUploadsTwice(w: World, disk: Disk, b: Blobs, us: seq<Upload>)
    ensures ApplyUploads(w, disk, ApplyUploads(w, disk, b, us), us) == ApplyUploads(w, disk, b, us)
  {
    var m := ApplyUploads(w, disk, map[], us);
    ApplyUploadsOverlay(w, disk, b, us);
    ApplyUploadsOverlay(w, disk, b + m, us);
    Maps.OverlayTwice(b, m);
  }

  /** Uploads read the local disk only at their own local paths. */
  lemma {:induction false} ApplyUploadsLocals(w: World, d1: Disk, d2: Disk, b: Blobs, us: seq<Upload>)
    requires forall u :: u in us ==> (u.local in d1 <==> u.local in d2) && (u.local in d1 ==> d1[u.local] == d2[u.local])
    ensures ApplyUploads(w, d1, b, us) == ApplyUploads(w, d2, b, us)
    decreases |us|
  {
    if us != [] {
      assert forall u :: u in us[..|us| - 1] ==> u in us;
      assert us[|us| - 1] in us;
      ApplyUploadsLocals(w, d1, d2, b, us[..|us| - 1]);
    }
  }

  /** Uploads read only the refusals of the world, not its listings, spreadsheets or database. */
  lemma {:induction false} ApplyUploadsReadsRefusals(w: World, w2: World, disk: Disk, b: Blobs, us: seq<Upload>)
    requires w2.rejected == w.rejected
    ensures ApplyUploads(w2, disk, b, us) == ApplyUploads(w, disk, b, us)
    decreases |us|
  {
    if us != [] {
      ApplyUploadsReadsRefusals(w, w2, disk, b, us[..|us| - 1]);
    }
  }

  /** The SQL part again, over its own output and files that start with `.` or `/`: the same names, the same disk. */
  lemma SqlRepeat(w: World, folders: map<string, seq<string>>, disk0: Disk, e: Disk)
    requires forall p :: p in e ==> DotOrSlashPath(p)
    ensures var sql1 := ExtractSqlData(w, disk0, SqlQuery, SqlTable);
      ExtractSqlData(w.(folders := folders), sql1.disk + e, SqlQuery, SqlTable) == SqlResult(sql1.raw, sql1.clean, sql1.disk + e)
  {
    var s := ExtractSqlData(w, map[], SqlQuery, SqlTable).disk;
    SqlOverlay(w, disk0);
    SqlOverlay(w, (disk0 + s) + e);
    Maps.OverlayAgain(disk0, s, e);
    assert ExtractSqlData(w.(folders := folders), (disk0 + s) + e, SqlQuery, SqlTable) == ExtractSqlData(w, (disk0 + s) + e, SqlQuery, SqlTable);
  }

  /** The spreadsheet loop again, over its own output and a listing with the same spreadsheet entries. */
  lemma ExcelRepeat(w: World, folders: map<string, seq<string>>, first: seq<string>, listing: seq<string>, d: Disk)
    requires Seqs.Filter(listing, IsExcelName) == Seqs.Filter(first, IsExcelName)
    ensures var st := ExcelRun(w, ExcelFolder, first, d);
      ExcelRun(w.(folders := folders), ExcelFolder, listing, st.disk) == st
  {
    var st := ExcelRun(w, ExcelFolder, first, d);
    ExcelRunReadsSheetsAndWrites(w, w.(folders := folders), ExcelFolder, listing, st.disk);
    ExcelRunSpreadsheetsOnly(w, ExcelFolder, listing, st.disk);
    ExcelRunSpreadsheetsOnly(w, ExcelFolder, first, st.disk);
    ExcelRunTwice(w, ExcelFolder, first, d);
  }

  /** Files that start with `.` or `/`, laid over the disk, leave the SQL uploads' local files as they were. */
  lemma SqlLocalsKept(w: World, disk0: Disk, e: Disk)
    requires forall p :: p in e ==> DotOrSlashPath(p)
    ensures var sql := ExtractSqlData(w, disk0, SqlQuery, SqlTable);
      forall u :: u in SqlUploads(sql) ==>
        && (u.local in sql.disk <==> u.local in sql.disk + e)
        && (u.local in sql.disk ==> sql.disk[u.local] == (sql.disk + e)[u.local])
  {
    var sql := ExtractSqlData(w, disk0, SqlQuery, SqlTable);
    forall u | u in SqlUploads(sql)
      ensures u.local !in e
    {
      assert u.local == SqlTable + RawSuffix || u.local == SqlTable + CleanSuffix;
      assert !DotOrSlashPath(u.local);
    }
  }

  /**
   * The uploads again: the SQL ones from a disk that agrees at their local
   * paths with the one they first read, the spreadsheet ones from the same
   * disk as before. The storage ends as the first run left it.
   */
  lemma UploadsRepeat(w: World, folders: map<string, seq<string>>, dSql: Disk, disk: Disk, blobs0: Blobs, sqlUps: seq<Upload>, excelUps: seq<Upload>)
    requires forall u :: u in sqlUps ==> (u.local in dSql <==> u.local in disk) && (u.local in dSql ==> dSql[u.local] == disk[u.local])
    ensures var b1 := ApplyUploads(w, disk, ApplyUploads(w, dSql, blobs0, sqlUps), excelUps);
      var w2 := w.(folders := folders);
      ApplyUploads(w2, disk, ApplyUploads(w2, disk, b1, sqlUps), excelUps) == b1
  {
    var b1 := ApplyUploads(w, disk, ApplyUploads(w, dSql, blobs0, sqlUps), excelUps);
    ApplyUploadsLocals(w, dSql, disk, blobs0, sqlUps);
    ApplyUploadsReadsRefusals(w, w.(folders := folders), disk, b1, sqlUps);
    ApplyUploadsReadsRefusals(w, w.(folders := folders), disk, ApplyUploads(w, disk, b1, sqlUps), excelUps);
    ApplyUploadsAppend(w, disk, blobs0, sqlUps, excelUps);
    ApplyUploadsAppend(w, disk, b1, sqlUps, excelUps);
    ApplyUploadsTwice(w, disk, blobs0, sqlUps + excelUps);
  }

  /** Adding names that are not spreadsheet names to a listing, such as the twins a run wrote, keeps its spreadsheet entries. */
  lemma NonSpreadsheetsAdded(first: seq<string>, extra: seq<string>)
    requires forall x :: x in extra ==> !IsExcelName(x)
    ensures Seqs.Filter(first + extra, IsExcelName) == Seqs.Filter(first, IsExcelName)
  {
    Seqs.FilterAppend(first, extra, IsExcelName);
    Seqs.FilterNone(extra, IsExcelName);
    assert Seqs.Filter(first, IsExcelName) + [] == Seqs.Filter(first, IsExcelName);
  }

  /**
   * Idempotence of the whole script: a second run, over the local files and
   * the blobs the first run left and over a listing of `./excels` that has
   * the same spreadsheet entries in the same order (the first listing plus
   * the twins, for instance), makes the same upload calls, leaves the disk
   * and the blobs as they were, and ends the same way.
   */
  lemma RerunChangesNothing(w: World, listing: seq<string>, disk0: Disk, blobs0: Blobs)
    requires ExcelFolder in w.folders
    requires Seqs.Filter(listing, IsExcelName) == Seqs.Filter(w.folders[ExcelFolder], IsExcelName)
    ensures var r1 := Run(w, disk0, blobs0);
      Run(w.(folders := w.folders[ExcelFolder := listing]), r1.disk, r1.blobs) == r1
  {
    if w.containersUp {
      var r1 := Run(w, disk0, blobs0);
      var fs := w.folders[ExcelFolder := listing];
      var first := w.folders[ExcelFolder];
      var sql1 := ExtractSqlData(w, disk0, SqlQuery, SqlTable);
      var st := ExcelRun(w, ExcelFolder, first, sql1.disk);
      var e := ExcelRun(w, ExcelFolder, first, map[]).disk;
      ExcelRunOverlay(w, ExcelFolder, first, sql1.disk);
      ExcelWritesInFolder(w, first);
      SqlRepeat(w, fs, disk0, e);
      ExcelRepeat(w, fs, first, listing, sql1.disk);
      var sqlUps := SqlUploads(sql1);
      SqlLocalsKept(w, disk0, e);
      UploadsRepeat(w, fs, sql1.disk, st.disk, blobs0, sqlUps,
                    ExcelUploads(st.raw, RawContainer) + ExcelUploads(st.clean, CleanedContainer));
    }
  }
}
