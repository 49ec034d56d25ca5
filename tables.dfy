/**
 * In-memory tables as pandas holds them after `read_sql` / `read_excel`:
 * named columns and an ordered sequence of rows whose cells may be missing.
 * `dropna()` with its default `how='any'` keeps the rows without a missing cell.
 */
module Tables {
  import opened Wrappers
  import Seqs

  /** A cell's value; text, numbers and dates are what the sources deliver. */
  datatype Value = Text(text: string) | Number(number: int) | Date(day: int)

  /** A cell is `None` when pandas reads it as missing (NaN, None, NaT). */
  type Cell = Option<Value>
  type Row = seq<Cell>

  datatype Table = Table(columns: seq<string>, rows: seq<Row>)

  /** A row with no missing cell. */
  predicate Complete(row: Row)
  {
    forall c :: c in row ==> c.Some?
  }

  /** `df.dropna()` on the rows. */
  function DropNa(rows: seq<Row>): (r: seq<Row>)
    ensures forall row :: row in r ==> row in rows && Complete(row)
  {
    Seqs.Filter(rows, Complete)
  }

  /** The clean twin of a table: same columns, rows filtered by `DropNa`. */
  function Clean(t: Table): (c: Table)
    ensures c.columns == t.columns && |c.rows| <= |t.rows|
  {
    Table(t.columns, DropNa(t.rows))
  }

  /** The clean rows are the raw rows with some deleted; order is kept. */
  lemma CleanIsOrderedSubsequence(rows: seq<Row>)
    ensures Seqs.Subsequence(DropNa(rows), rows)
  {
    Seqs.FilterIsSubsequence(rows, Complete);
  }

  /** Every complete raw row is kept, as often as it occurs; incomplete rows are gone. */
  lemma CleanKeepsEveryCompleteRow(rows: seq<Row>, row: Row)
    ensures multiset(DropNa(rows))[row] == if Complete(row) then multiset(rows)[row] else 0
  {
    Seqs.FilterCount(rows, Complete, row);
  }

  /** Clean equals raw exactly when no raw row has a missing cell. */
  lemma CleanEqualsRawIffComplete(rows: seq<Row>)
    ensures DropNa(rows) == rows <==> forall row :: row in rows ==> Complete(row)
  {
    Seqs.FilterKeepsAll(rows, Complete);
  }

  /** One raw row with a missing cell makes the clean table strictly shorter. */
  lemma CleanShorterIfSomeMissing(rows: seq<Row>, row: Row)
    requires row in rows && !Complete(row)
    ensures |DropNa(rows)| < |rows|
  {
    Seqs.FilterShorter(rows, Complete, row);
  }

  /** Cleaning a clean table changes nothing. */
  lemma CleanIdempotent(t: Table)
    ensures Clean(Clean(t)) == Clean(t)
  {
    Seqs.FilterNested(t.rows, Complete, Complete);
  }
}
