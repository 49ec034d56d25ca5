# Data-lake ingestion script, modelled in Dafny

`script_proceso.py` is a small ETL job. It connects to a `raw` and a
`cleaned` blob container. It then runs one fixed SQL query and writes the
result twice: verbatim as a raw parquet file, and as a clean parquet file
holding only the rows with no missing cell (`dropna()`). Both files are
uploaded under `sql/`. Next it scans `./excels`. Every `.xlsx` / `.xls`
entry gets the same raw/clean treatment, its two parquet files are named
by rewriting the extension with `str.replace`, and every raw file goes to
the raw container and every clean file to the cleaned container, under
`excel/<basename>`. Any one failure is logged and skipped. A failure to
connect or to list the folder ends the run in the outer `except`.

The model treats all I/O as data. A `World` value describes what the
database returns, what each folder lists, what each spreadsheet holds,
which `to_parquet` calls fail, whether the containers can be
reached, and which uploads the storage service refuses. The local disk
and the blob store are maps that the model threads through the run. The
upload calls come out as an ordered list of (local path, blob name,
container) triples.

Modules, following the structure of the script:

- `Wrappers`: `Option`, and Python truthiness of an optional string.
- `Seqs`: an order-preserving `Filter` and its algebra: subsequence, append, counts, nesting.
- `PyStrings`: `str.endswith`, `str.replace` (left-to-right, non-overlapping, every occurrence, including Python's empty-pattern case), and `os.path.join` / `os.path.basename` as on POSIX.
- `Tables`: cells as `Option<Value>`, rows and tables, `dropna()` and the clean twin of a table.
- `Naming`: spreadsheet selection and the chained replace that derives the parquet names.
- `Environment`: the containers, the local disk, the blob store and the `World`.
- `SqlExtraction`: `extract_sql_data`.
- `ExcelExtraction`: `extract_excel_files`. It has a per-entry reference function, a fold over the listing, and the imperative loop proved equal to the fold.
- `ExcelPairing`: what the two returned lists point at on disk at the end of the loop, and how a name collision breaks the pairing.
- `Pipeline`: `upload_to_blob` and `main`. `Run` is the reference function of a whole run. `RunMain` and its parts are the imperative version, with explicit upload loops.
- `Maps` and `Rerun`: a second run over what the first left behind, and why it changes nothing.

`os.path.join(a, b)` is modelled as POSIX `posixpath.join` for two arguments:

- if `b` starts with `/`, the result is `b`;
- otherwise, if `a` is empty or ends with `/`, the result is `a + b`;
- otherwise the result is `a + "/" + b`.

`os.path.basename` is the part after the last `/`.

## Model

| member | source | states |
|---|---|---|
| PyStrings.ReplaceAll | script_proceso.py:64-65 | definition of `str.replace(old, new)`: every non-overlapping occurrence, left to right, and Python's empty-pattern case; its facts are `ReplaceAllShort`, `ReplaceAllWhole`, `ReplaceAllUnchanged`, `ReplaceAllConcat` and `ReplaceAllChars` |
| PyStrings.EndsWith | script_proceso.py:60 | definition of `str.endswith`: the string is at least as long as the suffix and its last characters are the suffix; its facts are `EndsWithAt` and `Naming.ExcelNameParts` |
| PyStrings.Join | script_proceso.py:66-67 | a joined path ends with its second component |
| PyStrings.Basename | script_proceso.py:96 | the basename is a slash-free suffix of the path, either the whole path or the part right after a `/` |
| PyStrings.BasenameJoin | script_proceso.py:96-98 | the basename of `join(folder, name)` is `name` for any slash-free name |
| PyStrings.ReplaceAllShort | script_proceso.py:64-65 | a string shorter than a non-empty pattern is left unchanged |
| PyStrings.ReplaceAllWhole | script_proceso.py:64-65 | replacing a string that equals the pattern gives the replacement |
| PyStrings.ReplaceAllUnchanged | script_proceso.py:64-65 | a string in which the pattern never occurs is left unchanged |
| PyStrings.ReplaceAllConcat | script_proceso.py:64-65 | if no occurrence straddles the boundary, replace-all on `a + b` is replace-all on `a` followed by replace-all on `b` |
| PyStrings.ReplaceAllChars | script_proceso.py:64-65 | replace-all never introduces a character that is in neither the input nor the replacement |
| Tables.DropNa | script_proceso.py:49 | every kept row comes from the input and has no missing cell |
| Tables.Clean | script_proceso.py:49-50 | the clean table keeps the columns and has at most as many rows |
| Tables.CleanIsOrderedSubsequence | script_proceso.py:69 | the clean rows are the raw rows with some deleted, order kept |
| Tables.CleanKeepsEveryCompleteRow | script_proceso.py:69 | each complete row is kept as many times as it occurs; each incomplete row is never kept |
| Tables.CleanEqualsRawIffComplete | script_proceso.py:69 | clean equals raw if and only if no raw row has a missing cell |
| Tables.CleanShorterIfSomeMissing | script_proceso.py:69 | one raw row with a missing cell makes the clean table strictly shorter |
| Tables.CleanIdempotent | script_proceso.py:69 | cleaning a clean table changes nothing |
| Naming.IsExcelName | script_proceso.py:60 | definition of the selection test, `endswith(".xlsx") or endswith(".xls")`; its facts are `ExcelNameParts` and `DerivedNameNotExcel` |
| Naming.DeriveName | script_proceso.py:64-65 | definition of the chained replace, first `.xlsx` then `.xls`; its facts are the `Naming` lemmas below |
| Naming.RawName | script_proceso.py:64 | definition of the raw twin name, the chained replace with `_raw.parquet` |
| Naming.CleanName | script_proceso.py:65 | definition of the clean twin name, the chained replace with `_clean.parquet` |
| Naming.RawPath | script_proceso.py:66 | definition of the raw twin path, the folder joined with the raw name; its facts are `RawAndCleanPathsDiffer` and `Rerun.TwinsUnderExcelFolder` |
| Naming.CleanPath | script_proceso.py:67 | definition of the clean twin path, the folder joined with the clean name; its facts are `RawAndCleanPathsDiffer` and `Rerun.TwinsUnderExcelFolder` |
| Naming.ExcelNameParts | script_proceso.py:60 | a selected name is a stem followed by `.xlsx` or `.xls` |
| Naming.SuffixFacts | script_proceso.py:64-65 | neither output suffix contains `.xls`, `.xlsx` or `/` |
| Naming.FinalXlsxBecomesSuffix | script_proceso.py:64-65 | a final `.xlsx` becomes the suffix, after the stem is rewritten on its own |
| Naming.FinalXlsBecomesSuffix | script_proceso.py:64-65 | a final `.xls` becomes the suffix, after the stem is rewritten on its own |
| Naming.FinalExtensionBecomesSuffix | script_proceso.py:64-65 | for either extension, `derive(stem + ext) == derive(stem) + suffix` |
| Naming.PlainStemKept | script_proceso.py:64-65 | a stem in which `.xls` never occurs is not changed by the chained replace |
| Naming.PlainNameTwins | script_proceso.py:64-65 | for such a stem, the raw name is stem + `_raw.parquet`, the clean name is stem + `_clean.parquet`, and the two differ |
| Naming.DerivedNameEndsWithSuffix | script_proceso.py:64-65 | every derived name of a selected file ends with its suffix |
| Naming.SuffixesExclusive | script_proceso.py:64-65 | no string ends with both suffixes |
| Naming.RawAndCleanNamesDiffer | script_proceso.py:64-65 | the raw and clean names of any selected file differ |
| Naming.RawAndCleanPathsDiffer | script_proceso.py:66-67 | the raw and clean paths differ in any folder, and each ends with its suffix |
| Naming.DerivedNameNotExcel | script_proceso.py:60-65 | a derived parquet name is never itself selected as a spreadsheet |
| Naming.DerivedNameHasNoSlash | script_proceso.py:64-65 | a slash-free entry name gives slash-free derived names |
| Naming.SiblingExtensionsCollide | script_proceso.py:64-65 | `x.xlsx` and `x.xls` are given the same parquet names |
| Naming.InnerExtensionRewritten | script_proceso.py:64-65 | an inner extension is rewritten too: `v1.xls.xlsx` gets the suffix twice |
| SqlExtraction.SqlSucceeds | script_proceso.py:43-50 | definition of the success condition of the `try`: the query answers and both `to_parquet` calls succeed; `ExtractSqlData` returns both names exactly when it holds |
| SqlExtraction.ExtractSqlData | script_proceso.py:42-54 | both names or neither; success exactly when the query answers and both writes succeed; the names are `table_raw.parquet` and `table_clean.parquet`; the disk holds the raw and clean tables on success, and at most the raw write on failure |
| SqlExtraction.SqlFilesWritten | script_proceso.py:46-51 | on success both returned files are on disk with the result set and its complete rows, and both names are truthy |
| ExcelExtraction.Succeeds | script_proceso.py:60-70 | definition: the entry is selected, its sheet can be read and both writes succeed; `ProcessEntry` is processed exactly when it holds |
| ExcelExtraction.Successful | script_proceso.py:59-72 | reference definition of the entries that reach the returned lists, as a filter of the listing; its facts are `ExcelRunLists`, `SuccessfulInListingOrder` and `SuccessfulExactlyOnce` |
| ExcelExtraction.ExcelRun | script_proceso.py:59-75 | definition of the loop as a fold of `ProcessEntry` over the listing; `ExtractExcelFiles` is proved equal to it, and its facts are `ExcelRunLists`, `ExcelRunDisk` and `ExcelPairing.TwinsHoldTheirSheet` |
| ExcelExtraction.ProcessEntry | script_proceso.py:60-75 | an entry is ignored exactly when its name is not a spreadsheet and processed exactly when every step succeeds, with the derived raw and clean paths |
| ExcelExtraction.ProcessEntryDisk | script_proceso.py:68-70 | a processed entry writes the sheet to the raw path and its complete rows to the distinct clean path; a failed one leaves the disk unchanged or holding only the raw write |
| ExcelExtraction.ExtractExcelFiles | script_proceso.py:56-76 | a missing folder raises, otherwise the loop equals the fold over the listing; the two lists have the length of the successful entries, and position k of each holds that entry's raw and clean twin |
| ExcelExtraction.ExcelRunLists | script_proceso.py:57-72 | the two lists built by the fold are paired position by position with the successful entries |
| ExcelExtraction.SuccessfulInListingOrder | script_proceso.py:59-72 | the successful entries are a subsequence of the listing |
| ExcelExtraction.SuccessfulExactlyOnce | script_proceso.py:59-72 | a successful entry appears as often as it is listed; any other entry never appears |
| ExcelExtraction.NonExcelEntryIgnored | script_proceso.py:59-60 | a non-spreadsheet entry changes neither list nor the disk |
| ExcelExtraction.FailedEntryAppendsNothing | script_proceso.py:61-75 | an entry that fails appends to neither list |
| ExcelExtraction.FailureDoesNotStopOthers | script_proceso.py:74-75 | a failing entry does not stop the entries after it |
| ExcelExtraction.ExcelRunDisk | script_proceso.py:68-72 | the disk keeps every file it had, and every returned path names a file on disk |
| ExcelExtraction.RerunSelectsSameFiles | script_proceso.py:59-60 | listings that agree on their spreadsheet entries select the same files in the same order |
| ExcelExtraction.TwinsAreNotReselected | script_proceso.py:59-72 | no twin name of an entry the run processed is a spreadsheet name |
| ExcelPairing.TwinsHoldStep | script_proceso.py:66-72 | one more entry keeps every returned twin holding its entry's sheet and complete rows, when its twins are apart from the earlier ones |
| ExcelPairing.TwinsHoldTheirSheet | script_proceso.py:56-76 | when no two spreadsheets of the listing share a raw or a clean twin path, every returned raw path holds its entry's sheet and the clean path at the same position that sheet's complete rows |
| ExcelPairing.TwinsPairedOnDisk | script_proceso.py:56-76 | under the same condition, at every position k the clean twin holds the complete rows of what the raw twin holds |
| ExcelPairing.SharedRawTwinNames | script_proceso.py:64-65 | `s.xls.xls` and `s_raw.parquet.xls` get the same raw name but different clean names |
| ExcelPairing.SharedRawTwinRun | script_proceso.py:66-72 | when the two sheets' complete rows differ, two processed entries with one raw twin and two clean twins leave the first clean twin holding rows that are not the complete rows of the raw twin |
| ExcelPairing.SharedRawTwinUnpaired | script_proceso.py:59-72 | when the two sheets' complete rows differ, the listing `[s.xls.xls, s_raw.parquet.xls]`, both processed, returns the same raw path twice and a first clean path whose content is not the clean form of that raw path |
| Pipeline.ApplyUploads | script_proceso.py:89-98 | definition of a sequence of `upload_to_blob` calls, first to last; its facts are `ApplyUploadsAppend`, `ApplyUploadsFrame` and `Rerun.ApplyUploadsTwice` |
| Pipeline.SqlUploads | script_proceso.py:88-90 | definition of the two SQL upload calls, made only when both returned names are truthy; its facts are `SqlUploadsOnlyWhenExtracted` and `ExtractAndUploadSql` |
| Pipeline.ExcelUploads | script_proceso.py:95-98 | definition of one upload call per path, to `excel/` + basename; its facts are `ExcelUploadsShape`, `UploadAll` and `ExcelUploadsRouted` |
| Pipeline.Run | script_proceso.py:78-103 | reference definition of a whole run; `RunMain` is proved equal to it, and its facts are `RunAttempts`, `ExcelUploadsRouted`, `ContainerMatchesSuffix`, `SqlBlobsHoldExtract` and `Rerun.RerunChangesNothing` |
| Pipeline.UploadSucceeds | script_proceso.py:35-37 | definition of the success condition of the `try`: the local file exists and the storage service accepts the blob; `UploadToBlob` overwrites the blob exactly when it holds |
| Pipeline.SqlPhase | script_proceso.py:86-90 | reference definition of the SQL part of `main`; `ExtractAndUploadSql` is proved equal to it, and its facts are `SqlUploadsOnlyWhenExtracted` and `SqlBlobsHoldExtract` |
| Pipeline.ExcelPhase | script_proceso.py:94-98 | reference definition of the two upload loops; `UploadExcelFiles` is proved equal to it, and its facts are `ExcelUploadsRouted` and `ContainerMatchesSuffix` |
| Pipeline.UploadToBlob | script_proceso.py:34-40 | on success the blob is overwritten with the local file; on any failure the store is unchanged and the call returns |
| Pipeline.ApplyTwoUploads | script_proceso.py:89-90 | the two SQL uploads are applied one after the other |
| Pipeline.ExcelUploadsShape | script_proceso.py:95-98 | every spreadsheet upload goes to the given container, to a blob name that starts with `excel/`, from one of the given paths |
| Pipeline.ApplyUploadsAppend | script_proceso.py:95-98 | running two upload loops one after the other is running their concatenation |
| Pipeline.ApplyUploadsFrame | script_proceso.py:34-40 | a blob that no call targets is left as it was |
| Pipeline.UploadAll | script_proceso.py:95-96 | the loop makes exactly one call per path, in order, to `excel/` + basename, and the store is the result of those calls |
| Pipeline.UploadExcelFiles | script_proceso.py:94-98 | all raw uploads, then all clean uploads, one per path |
| Pipeline.ExtractAndUploadSql | script_proceso.py:87-90 | the SQL part equals its reference, and makes two uploads exactly when the extraction succeeds and none otherwise |
| Pipeline.RunMain | script_proceso.py:78-103 | the run equals `Run`; the outer `except` runs exactly when the containers are unreachable or the folder cannot be listed; with no connection nothing is uploaded or written |
| Pipeline.RunAttempts | script_proceso.py:80-98 | the calls are the SQL ones, then every raw twin, then every clean twin; when the folder cannot be listed only the SQL calls are made |
| Pipeline.SqlUploadsOnlyWhenExtracted | script_proceso.py:87-90 | each SQL upload is attempted exactly when `extract_sql_data` returned its name; when it did, the two are the first calls, in order |
| Pipeline.ExcelUploadsRouted | script_proceso.py:94-98 | after the SQL calls, the k-th successful spreadsheet's raw twin goes to the raw container and, after all raw twins, its clean twin goes to the cleaned container, each under `excel/` + its twin's name |
| Pipeline.RoutedPositions | script_proceso.py:95-98 | the same positions, stated for any paired lists of twins |
| Pipeline.TwinBasenames | script_proceso.py:96-98 | the blob name of a twin is `excel/` followed by the twin's derived name |
| Pipeline.TwinPathSuffixes | script_proceso.py:64-72 | every raw path ends with the raw suffix only; every clean path ends with the clean suffix only |
| Pipeline.ContainerMatchesSuffix | script_proceso.py:87-98 | in every run, a call goes to the raw container exactly when its local file ends with `_raw.parquet`, and to the cleaned container exactly when it ends with `_clean.parquet` |
| Pipeline.UploadFailuresNeverStopTheRun | script_proceso.py:34-40 | whichever uploads fail, the same calls are made in the same order, the disk ends the same, and the run ends the same way |
| Pipeline.SqlBlobsHoldExtract | script_proceso.py:87-98 | when the SQL extraction and both SQL uploads succeed, the raw container holds the result set and the cleaned container its complete rows; no spreadsheet upload overwrites them |
| Rerun.StepOverlay | script_proceso.py:60-72 | one loop iteration writes the same files over any disk |
| Rerun.ExcelRunOverlay | script_proceso.py:56-76 | the spreadsheet loop returns the same lists over any disk and lays the same writes over it |
| Rerun.ExcelRunTwice | script_proceso.py:56-76 | running the spreadsheet loop again over the disk it produced changes nothing |
| Rerun.ExcelRunSpreadsheetsOnly | script_proceso.py:59-60 | the loop gives the same result on the listing and on its spreadsheet entries alone |
| ExcelExtraction.ExcelRunReadsSheetsAndWrites | script_proceso.py:56-76 | the spreadsheet loop depends only on the spreadsheets and on which writes fail: not on the folder listings, nor on which uploads the storage service refuses |
| Rerun.ExcelWritesInFolder | script_proceso.py:66-70 | everything the spreadsheet loop writes starts with `.` or `/`, so it is never one of the SQL files |
| Rerun.TwinsUnderExcelFolder | script_proceso.py:64-67 | the twins of a slash-free spreadsheet entry are `./excels/` followed by their slash-free derived names |
| Rerun.SqlOverlay | script_proceso.py:42-54 | `extract_sql_data` returns the same names over any disk, and none of its files starts with `.` or `/` |
| Rerun.SqlRepeat | script_proceso.py:42-54 | the SQL part run again over its own output and files that start with `.` or `/` returns the same names and leaves the disk as it was |
| Rerun.ExcelRepeat | script_proceso.py:56-76 | the spreadsheet loop run again over its own output, on a listing with the same spreadsheet entries, returns the same lists and leaves the disk as it was |
| Rerun.ApplyUploadsOverlay | script_proceso.py:34-40 | a sequence of uploads lays the same blobs over any initial store |
| Rerun.ApplyUploadsTwice | script_proceso.py:34-40 | repeating the same uploads from the same disk leaves the store as it was |
| Rerun.ApplyUploadsLocals | script_proceso.py:36 | uploads read the disk only at their own local paths |
| Rerun.ApplyUploadsReadsRefusals | script_proceso.py:34-40 | the uploads depend only on which uploads the storage service refuses, not on the rest of the world |
| Rerun.SqlLocalsKept | script_proceso.py:87-90 | files that start with `.` or `/` leave the SQL uploads' local files as they were |
| Rerun.UploadsRepeat | script_proceso.py:87-98 | repeating the SQL and spreadsheet uploads from the disk the first run left leaves the store as the first run left it |
| Rerun.NonSpreadsheetsAdded | script_proceso.py:59-60 | adding names that are not spreadsheet names to a listing keeps its spreadsheet entries |
| Rerun.RerunChangesNothing | script_proceso.py:78-103 | a second run over the disk and blobs the first left, with a listing of `./excels` that has the same spreadsheet entries, makes the same calls, leaves disk and blobs unchanged, and ends the same way |

## Left out

- Reading and writing Excel, SQL and Parquet data (`pd.read_excel`, `pd.read_sql`, `to_parquet`). These are given by the `World`: a table per query and per spreadsheet path, and the set of `to_parquet` calls that raise. A call is named by what it writes (the SQL raw or clean file, or the raw or clean twin of one directory entry), so the fate of each write is decided on its own, even when two entries write to the same path. Entries are unique within one listing, so one name per call is enough.
- The SQLAlchemy engine and connection string (lines 31-32). A query that is missing from `World.db` stands for every way the engine, the connection or the query can fail.
- The Azure SDK (lines 27-29, 37). Connecting is one flag, `containersUp`, that covers both containers. Upload refusals are a set of (container, blob name) pairs.
- Logging and console output (lines 21-25 and every `log_info` / `log_error` call). These have no effect on the state the model tracks.
- Configuration and credentials (lines 10-20). Only the folder, the query, the table name and the blob names are kept, as constants, and the two containers, as the tags `RawContainer` and `CleanedContainer`.
- The order of `os.listdir` is an input, not derived. Within one run the listing is read once, before any twin is written. A later run sees a new listing, which is an input of that run; `Rerun.RerunChangesNothing` covers any new listing with the same spreadsheet entries in the same order, and such a listing is what appending the twins gives: `Naming.DerivedNameNotExcel` shows that no twin the loop writes, of a processed entry or of one whose clean write failed, is a spreadsheet name, and `Rerun.NonSpreadsheetsAdded` that appending names that are not spreadsheet names keeps the spreadsheet entries. A listing that puts the old spreadsheets in a new order is not covered.
- Windows path rules (`ntpath`). Only POSIX `join` and `basename` are modelled. Paths are compared as plain strings, with no normalisation of `./`.
- Floating-point values and the many pandas dtypes. A cell is `None` when pandas would see it as missing, and otherwise holds a text, integer or date value. `dropna()` depends only on missingness.
- ExtractSqlData: a write that fails leaves that path as it was. A partially written parquet file is not modelled.
- ExcelExtraction.ProcessEntryDisk: a write that fails leaves that path as it was. A partially written parquet file is not modelled.
- Rerun.RerunChangesNothing: the second run reads the same database answers, spreadsheets, write failures and upload refusals as the first; only the listing of `./excels` changes. A rerun over changed inputs is not covered.
- Writes to the local disk are not seen by later reads of spreadsheets or of the database within the same run. The whole run reads one `World`.
- The metadata recorder, the metadata uploader and the alerting of the wider system are not part of this model. `script_proceso.py` has no code for them.
- Exceptions raised by the logging calls themselves, and interrupts, are not modelled.

## Findings

| source | as written | input that shows it | evidently intended | confidence | as-written member | corrected member |
|---|---|---|---|---|---|---|
| script_proceso.py:64-72 | the twin names come from a replace-all of every `.xlsx` / `.xls`, so two spreadsheets can share a raw twin while their clean twins differ; the later sheet overwrites the raw file, but the returned lists still pair that raw path with the earlier sheet's clean file, and the earlier sheet's raw data is uploaded nowhere | the folder `./excels` listing `a.xls.xls` and then `a_raw.parquet.xls`, both readable and writable, holding sheets whose complete rows differ | each returned raw/clean pair holds one sheet and that sheet's complete rows | not executed; medium | ExcelPairing.SharedRawTwinUnpaired | ExcelPairing.TwinsHoldTheirSheet |
