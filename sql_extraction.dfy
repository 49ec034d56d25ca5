/** `extract_sql_data`: one query, written as a raw and a clean parquet file in the working directory. */
module SqlExtraction {
  import opened Wrappers
  import opened Tables
  import opened Naming
  import opened Environment

  /** The returned pair of paths, and the disk after the attempt. */
  datatype SqlResult = SqlResult(raw: Option<string>, clean: Option<string>, disk: Disk)

  /** Whether every step inside the `try` block succeeds. */
  predicate SqlSucceeds(w: World, query: string)
  {
    query in w.db && SqlWrite(RawTwin) !in w.failedWrites && SqlWrite(CleanTwin) !in w.failedWrites
  }

  /**
   * Reads the query's result, writes it verbatim, then writes its `dropna()`;
   * any failure is swallowed and gives `(None, None)`.
   */
  function ExtractSqlData(w: World, disk: Disk, query: string, table: string): (r: SqlResult)
    ensures r.raw.Some? <==> r.clean.Some?
    ensures r.raw.Some? <==> SqlSucceeds(w, query)
    ensures r.raw.Some? ==> r.raw.value == table + RawSuffix && r.clean.value == table + CleanSuffix
    ensures r.raw.Some? ==> r.disk == disk[table + RawSuffix := w.db[query]][table + CleanSuffix := Clean(w.db[query])]
    ensures r.raw.None? ==> r.disk == disk || (query in w.db && r.disk == disk[table + RawSuffix := w.db[query]])
  {
    if query !in w.db then SqlResult(None, None, disk)
    else
      var df := w.db[query];
      var rawPath := table + RawSuffix;
      var cleanPath := table + CleanSuffix;
      if SqlWrite(RawTwin) in w.failedWrites then SqlResult(None, None, disk)
      else
        var written := disk[rawPath := df];
        if SqlWrite(CleanTwin) in w.failedWrites then SqlResult(None, None, written)
        else SqlResult(Some(rawPath), Some(cleanPath), written[cleanPath := Clean(df)])
  }

  /** On success both files are on disk: the raw one holds the result set, the clean one its complete rows. */
  lemma SqlFilesWritten(w: World, disk: Disk, query: string, table: string)
    requires SqlSucceeds(w, query)
    ensures var r := ExtractSqlData(w, disk, query, table);
      && r.raw.value in r.disk && r.clean.value in r.disk
      && r.disk[r.raw.value] == w.db[query]
      && r.disk[r.clean.value] == Clean(w.db[query])
      && Truthy(r.raw) && Truthy(r.clean)
  {
    assert |table + RawSuffix| != |table + CleanSuffix|;
  }
}
