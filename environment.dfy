/**
 * The outside world of one run, given as data: what the database answers,
 * what each folder lists, what each spreadsheet holds, where writes fail,
 * whether the storage service can be reached and which uploads it refuses.
 */
module Environment {
  import opened Tables

  /** The two blob containers, `RAW_CONTAINER` and `CLEANED_CONTAINER`. */
  datatype Container = RawContainer | CleanedContainer

  /** Which of the two parquet twins a write produces. */
  datatype Twin = RawTwin | CleanTwin

  /**
   * One `to_parquet` call of a run: one of the two SQL writes, or one of the
   * two writes made for a directory entry (named by the entry, which is
   * unique within an `os.listdir` result).
   */
  datatype WriteId = SqlWrite(twin: Twin) | SheetWrite(entry: string, twin: Twin)

  /** Local parquet files by path. */
  type Disk = map<string, Table>

  /** Blobs by container and blob name. */
  type Blobs = map<(Container, string), Table>

  datatype World = World(
    db: map<string, Table>,            // query -> result set; a missing query fails (engine, connection or SQL error)
    folders: map<string, seq<string>>, // os.listdir(folder) in its order; a missing folder raises
    sheets: map<string, Table>,        // path -> what pd.read_excel returns; a missing path raises
    failedWrites: set<WriteId>,        // the to_parquet calls that raise
    containersUp: bool,                // connect_blob_container succeeds for both containers
    rejected: set<(Container, string)> // uploads the storage service refuses
  )
}
