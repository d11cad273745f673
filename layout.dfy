/**
 * The text the backup script writes, as the sequence of strings passed to
 * successive `fwrite` calls (shared/supervisor/scripts/db-backup.php, lines
 * 36-96): header and preamble, then each table's DROP, CREATE and INSERT
 * statements in the order the table list gives, then the footer.
 */
module Layout {
  import opened Seqs
  import opened Render
  import opened Paging

  /** What the script reads about one table. */
  datatype Table = Table(
    name: string,          // from SHOW TABLES
    create: string,        // the `Create Table` column of SHOW CREATE TABLE
    count: int,            // SELECT COUNT(*), read once before paginating
    columns: seq<string>,  // SHOW COLUMNS, in the order returned
    rows: seq<Row>)        // what successive LIMIT/OFFSET selects return

  /** The header comment block and the four-statement preamble, one string per `fwrite`. */
  function Header(generated: string, database: string): seq<string>
  {
    [ "-- MySQL Backup\n",
      "-- Generated: " + generated + "\n",
      "-- Database: " + database + "\n",
      "-- --------------------------------------------------------\n\n",
      "SET FOREIGN_KEY_CHECKS=0;\n",
      "SET SQL_MODE='NO_AUTO_VALUE_ON_ZERO';\n",
      "SET AUTOCOMMIT=0;\n",
      "START TRANSACTION;\n\n" ]
  }

  /** The two-statement footer. */
  function Footer(): seq<string>
  {
    [ "SET FOREIGN_KEY_CHECKS=1;\n", "COMMIT;\n" ]
  }

  function DropLine(name: string): string
  {
    "DROP TABLE IF EXISTS " + Backticked(name) + ";\n"
  }

  function CreateLine(create: string): string
  {
    create + ";\n\n"
  }

  function InsertHead(name: string, columnList: string): string
  {
    "INSERT INTO " + Backticked(name) + " (" + columnList + ") VALUES\n"
  }

  function InsertBody(tuples: seq<string>): string
  {
    Join(",\n", tuples) + ";\n\n"
  }

  /** The writes for one fetched chunk's rendered tuples: nothing when there are none. */
  function ChunkWrites(name: string, columnList: string, tuples: seq<string>): (w: seq<string>)
    ensures tuples == [] ==> w == []
    ensures tuples != [] ==> |w| == 2
  {
    if tuples == [] then [] else [InsertHead(name, columnList), InsertBody(tuples)]
  }

  /** The writes for the chunks of a table, in fetch order. */
  function InsertWrites(name: string, columnList: string, pages: seq<seq<Row>>, quote: string -> string): seq<string>
  {
    Flatten(seq(|pages|, k requires 0 <= k < |pages| => ChunkWrites(name, columnList, RenderTuples(pages[k], quote))))
  }

  /** The writes for a list of chunks are those of its first chunk, then those of the rest. */
  lemma InsertWritesCons(name: string, columnList: string, chunk: seq<Row>, rest: seq<seq<Row>>, quote: string -> string)
    ensures InsertWrites(name, columnList, [chunk] + rest, quote)
         == ChunkWrites(name, columnList, RenderTuples(chunk, quote)) + InsertWrites(name, columnList, rest, quote)
  {
    var pages := [chunk] + rest;
    var parts := seq(|pages|, k requires 0 <= k < |pages| => ChunkWrites(name, columnList, RenderTuples(pages[k], quote)));
    assert parts[1..] == seq(|rest|, k requires 0 <= k < |rest| => ChunkWrites(name, columnList, RenderTuples(rest[k], quote)));
  }

  /** Everything written for one table. */
  function TableWrites(t: Table, quote: string -> string): seq<string>
  {
    [DropLine(t.name), CreateLine(t.create)]
    + if t.count > 0 then InsertWrites(t.name, ColumnList(t.columns), Pages(t.rows, t.count, 0), quote) else []
  }

  /** Everything written for the tables, in the order given. */
  function Body(tables: seq<Table>, quote: string -> string): seq<string>
  {
    Flatten(seq(|tables|, i requires 0 <= i < |tables| => TableWrites(tables[i], quote)))
  }

  /** The whole dump. */
  function DumpWrites(generated: string, database: string, tables: seq<Table>, quote: string -> string): seq<string>
  {
    Header(generated, database) + Body(tables, quote) + Footer()
  }

  /**
   * The framing is fixed: the eight header writes come first, the two footer
   * writes last, and the tables' output sits between them.
   */
  lemma Framing(generated: string, database: string, tables: seq<Table>, quote: string -> string)
    ensures var w := DumpWrites(generated, database, tables, quote);
            |w| == 10 + |Body(tables, quote)|
            && w[..8] == Header(generated, database)
            && w[8..|w| - 2] == Body(tables, quote)
            && w[|w| - 2..] == [ "SET FOREIGN_KEY_CHECKS=1;\n", "COMMIT;\n" ]
  {
    var w := DumpWrites(generated, database, tables, quote);
    var b := Body(tables, quote);
    assert w == Header(generated, database) + b + Footer();
    assert w[..8] == Header(generated, database);
    assert w[8..|w| - 2] == b;
  }

  /** Dumping one more table appends exactly that table's writes. */
  lemma BodySnoc(tables: seq<Table>, t: Table, quote: string -> string)
    ensures Body(tables + [t], quote) == Body(tables, quote) + TableWrites(t, quote)
  {
    var parts := seq(|tables|, i requires 0 <= i < |tables| => TableWrites(tables[i], quote));
    var ts := tables + [t];
    assert seq(|ts|, i requires 0 <= i < |ts| => TableWrites(ts[i], quote)) == parts + [TableWrites(t, quote)];
    FlattenAppend(parts, [TableWrites(t, quote)]);
    assert Flatten([TableWrites(t, quote)]) == TableWrites(t, quote) + Flatten([]);
  }

  /**
   * Tables appear in the order given: table `i`'s writes follow those of every
   * earlier table and precede those of every later one.
   */
  lemma TableOrder(tables: seq<Table>, i: nat, quote: string -> string)
    requires i < |tables|
    ensures Body(tables, quote)
         == Body(tables[..i], quote) + TableWrites(tables[i], quote) + Body(tables[i + 1..], quote)
  {
    var before := tables[..i];
    var after := tables[i + 1..];
    var parts := seq(|tables|, j requires 0 <= j < |tables| => TableWrites(tables[j], quote));
    var partsBefore := seq(|before|, j requires 0 <= j < |before| => TableWrites(before[j], quote));
    var partsAfter := seq(|after|, j requires 0 <= j < |after| => TableWrites(after[j], quote));
    assert parts == partsBefore + [TableWrites(tables[i], quote)] + partsAfter;
    FlattenAppend(partsBefore + [TableWrites(tables[i], quote)], partsAfter);
    FlattenAppend(partsBefore, [TableWrites(tables[i], quote)]);
    assert Flatten([TableWrites(tables[i], quote)]) == TableWrites(tables[i], quote) + Flatten([]);
  }

  /**
   * The layout of one table's output: its DROP line, then its CREATE text and
   * `;`, then, only when the count is positive, one INSERT statement per
   * fetched chunk, each a head naming the table and the same column list,
   * followed by exactly that chunk's tuples.
   */
  lemma {:induction false} TableLayout(t: Table, quote: string -> string)
    ensures var w := TableWrites(t, quote);
            var pages := Pages(t.rows, t.count, 0);
            && w[0] == "DROP TABLE IF EXISTS `" + t.name + "`;\n"
            && w[1] == t.create + ";\n\n"
            && (t.count <= 0 ==> |w| == 2)
            && (t.count > 0 ==> |w| == 2 + 2 * |pages|)
            && (t.count > 0 ==> forall k :: 0 <= k < |pages| ==>
                  w[2 + 2 * k] == InsertHead(t.name, ColumnList(t.columns))
                  && w[3 + 2 * k] == InsertBody(RenderTuples(pages[k], quote)))
  {
    var w := TableWrites(t, quote);
    if t.count > 0 {
      var pages := Pages(t.rows, t.count, 0);
      var cl := ColumnList(t.columns);
      var parts := seq(|pages|, k requires 0 <= k < |pages| => ChunkWrites(t.name, cl, RenderTuples(pages[k], quote)));
      forall k | 0 <= k < |parts| ensures |parts[k]| == 2 {
        assert |RenderTuples(pages[k], quote)| == |pages[k]| > 0;
      }
      FlattenPairs(parts);
      assert w == [DropLine(t.name), CreateLine(t.create)] + Flatten(parts);
      forall k | 0 <= k < |pages|
        ensures w[2 + 2 * k] == InsertHead(t.name, cl)
        ensures w[3 + 2 * k] == InsertBody(RenderTuples(pages[k], quote))
      {
        assert RenderTuples(pages[k], quote) != [];
        assert w[2 + 2 * k] == Flatten(parts)[2 * k];
        assert w[3 + 2 * k] == Flatten(parts)[2 * k + 1];
      }
    }
  }

  /**
   * With an accurate count a table of N > 0 rows gets ceil(N / 1000) INSERT
   * statements, and their tuples, in order, are the rendered rows.
   */
  lemma InsertStatementCount(t: Table, quote: string -> string)
    requires t.count == |t.rows| > 0
    ensures |TableWrites(t, quote)| == 2 + 2 * CeilDiv(t.count)
    ensures Flatten(Pages(t.rows, t.count, 0)) == t.rows
  {
    TableLayout(t, quote);
    ExactCount(t.rows, t.count);
  }

  /**
   * A table of 2500 rows gets exactly three INSERT statements, holding the
   * tuples of rows 0-999, 1000-1999 and 2000-2499 respectively.
   */
  lemma TwentyFiveHundredRowTable(t: Table, quote: string -> string)
    requires t.count == |t.rows| == 2500
    ensures var w := TableWrites(t, quote);
            |w| == 8
            && w[3] == InsertBody(RenderTuples(t.rows[..1000], quote))
            && w[5] == InsertBody(RenderTuples(t.rows[1000..2000], quote))
            && w[7] == InsertBody(RenderTuples(t.rows[2000..], quote))
  {
    TableLayout(t, quote);
    TwentyFiveHundredRows(t.rows);
  }
}
