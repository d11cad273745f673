/**
 * The backup script's loops (shared/supervisor/scripts/db-backup.php, lines
 * 30-98): the output file as an append-only object, the table loop, the chunk
 * loop and the loop that renders a chunk's rows.
 */
module Backup {
  import opened Seqs
  import opened Render
  import opened Paging
  import opened Layout

  /** The output file: the strings written so far, one per `fwrite`. */
  class SqlFile {
    var writes: seq<string>

    /** `fopen($outputFile, 'w')`: the file starts out empty. */
    constructor ()
      ensures writes == []
    {
      writes := [];
    }

    /** `fwrite($fp, s)`. */
    method Write(s: string)
      modifies this
      ensures writes == old(writes) + [s]
    {
      writes := writes + [s];
    }
  }

  /** Lines 75-82: build `$values`, one rendered tuple per fetched row, in fetch order. */
  method RenderChunk(rows: seq<Row>, quote: string -> string) returns (values: seq<string>)
    ensures values == RenderTuples(rows, quote)
  {
    values := [];
    for i := 0 to |rows|
      invariant values == RenderTuples(rows[..i], quote)
    {
      assert rows[..i + 1] == rows[..i] + [rows[i]];
      values := values + [RenderTuple(rows[i], quote)];
    }
    assert rows[..|rows|] == rows;
  }

  /** Lines 52-91: the DROP and CREATE lines, then, for a positive count, the paginated INSERT statements. */
  method DumpTable(f: SqlFile, t: Table, quote: string -> string)
    modifies f
    ensures f.writes == old(f.writes) + TableWrites(t, quote)
  {
    f.Write(DropLine(t.name));
    f.Write(CreateLine(t.create));
    if t.count > 0 {
      var columnList := ColumnList(t.columns);
      DumpRows(f, t.name, columnList, t.rows, t.count, quote);
    }
  }

  /**
   * Lines 67-90: fetch `LIMIT ChunkSize OFFSET offset` for offsets 0, ChunkSize,
   * 2 ChunkSize, ... below `count`, stop at the first empty fetch, and write one
   * INSERT statement per non-empty chunk.
   */
  method DumpRows(f: SqlFile, name: string, columnList: string, table: seq<Row>, count: int, quote: string -> string)
    modifies f
    ensures f.writes == old(f.writes) + InsertWrites(name, columnList, Pages(table, count, 0), quote)
  {
    ghost var target := old(f.writes) + InsertWrites(name, columnList, Pages(table, count, 0), quote);
    var offset: nat := 0;
    while offset < count
      invariant f.writes + InsertWrites(name, columnList, Pages(table, count, offset), quote) == target
      decreases count - offset
    {
      var rows := Window(table, offset);
      PaginationStep(name, columnList, table, count, offset, quote);
      if rows == [] {
        break;
      }
      var values := RenderChunk(rows, quote);
      ghost var before := f.writes;
      ghost var later := InsertWrites(name, columnList, Pages(table, count, offset + ChunkSize), quote);
      if values != [] {
        f.Write(InsertHead(name, columnList));
        f.Write(InsertBody(values));
      }
      assert f.writes == before + ChunkWrites(name, columnList, values);
      AppendAssoc(before, ChunkWrites(name, columnList, values), later);
      offset := offset + ChunkSize;
    }
    PaginationStep(name, columnList, table, count, offset, quote);
  }

  /**
   * One pass of the chunk loop: below the count, the chunks from `offset` are
   * the window at `offset` followed by the chunks from the next offset, unless
   * that window is empty; past the count, or at an empty window, nothing more
   * is written.
   */
  lemma PaginationStep(name: string, columnList: string, table: seq<Row>, count: int, offset: nat, quote: string -> string)
    ensures var w := Window(table, offset);
            (offset >= count || w == []) ==> InsertWrites(name, columnList, Pages(table, count, offset), quote) == []
    ensures var w := Window(table, offset);
            offset < count && w != [] ==>
              InsertWrites(name, columnList, Pages(table, count, offset), quote)
              == ChunkWrites(name, columnList, RenderTuples(w, quote))
                 + InsertWrites(name, columnList, Pages(table, count, offset + ChunkSize), quote)
  {
    var w := Window(table, offset);
    if offset < count && w != [] {
      InsertWritesCons(name, columnList, w, Pages(table, count, offset + ChunkSize), quote);
    }
  }

  /**
   * The whole run: open the file, write the header and preamble, dump every
   * table in the order given, write the footer.
   */
  method Run(generated: string, database: string, tables: seq<Table>, quote: string -> string) returns (f: SqlFile)
    ensures fresh(f)
    ensures f.writes == DumpWrites(generated, database, tables, quote)
  {
    f := new SqlFile();
    WriteHeader(f, generated, database);
    ghost var header := Header(generated, database);
    for i := 0 to |tables|
      invariant f.writes == header + Body(tables[..i], quote)
    {
      DumpTable(f, tables[i], quote);
      BodySnoc(tables[..i], tables[i], quote);
      assert tables[..i + 1] == tables[..i] + [tables[i]];
      AppendAssoc(header, Body(tables[..i], quote), TableWrites(tables[i], quote));
    }
    assert tables[..|tables|] == tables;
    WriteFooter(f);
    assert f.writes == Header(generated, database) + Body(tables, quote) + Footer();
  }

  /** Lines 36-43: the header comment block and the preamble. */
  method WriteHeader(f: SqlFile, generated: string, database: string)
    modifies f
    ensures f.writes == old(f.writes) + Header(generated, database)
  {
    f.Write("-- MySQL Backup\n");
    f.Write("-- Generated: " + generated + "\n");
    f.Write("-- Database: " + database + "\n");
    f.Write("-- --------------------------------------------------------\n\n");
    f.Write("SET FOREIGN_KEY_CHECKS=0;\n");
    f.Write("SET SQL_MODE='NO_AUTO_VALUE_ON_ZERO';\n");
    f.Write("SET AUTOCOMMIT=0;\n");
    f.Write("START TRANSACTION;\n\n");
  }

  /** Lines 95-96: the footer. */
  method WriteFooter(f: SqlFile)
    modifies f
    ensures f.writes == old(f.writes) + Footer()
  {
    f.Write("SET FOREIGN_KEY_CHECKS=1;\n");
    f.Write("COMMIT;\n");
  }
}
