# Chunked MySQL dump, modelled in Dafny

This project models the core of the repository's database backup script,
`shared/supervisor/scripts/db-backup.php`: the serialiser that turns a MySQL
database into a SQL text dump. The script writes a fixed header and preamble
(`SET FOREIGN_KEY_CHECKS=0`, `SQL_MODE`, `AUTOCOMMIT=0`, `START TRANSACTION`).
Then, for every table in the order `SHOW TABLES` returns them, it writes a
`DROP TABLE IF EXISTS` line and the verbatim `SHOW CREATE TABLE` text. When
`COUNT(*)` is positive it also writes the rows as multi-row `INSERT`
statements, fetched with `LIMIT 1000 OFFSET o` for `o = 0, 1000, 2000, …`
while `o` is below the count, and stops early at the first empty fetch.
It ends with a fixed footer (`SET FOREIGN_KEY_CHECKS=1`, `COMMIT`).

The database is an abstract value. Each `Layout.Table` has a name, its CREATE
text, the separately read row `count`, its column names and its rows. A row
is a sequence of `Option<string>`, with `None` for SQL NULL. Because `count`
is separate from the rows, a count that has gone stale is modelled: the loop
may stop early at an empty fetch, or fetch up to a page past the count.
`LIMIT C OFFSET o` is the slice `rows[o .. min(o + C, |rows|)]`
(`Paging.Window`). The driver's `PDO::quote` is a function parameter `quote`.
The output file is `Backup.SqlFile`, an object holding the strings passed to
successive `fwrite` calls.

Modules:

- `Render` holds the pure parts. These are the per-value closure (NULL stays
  bare, anything else goes through `quote`), the tuple built with
  `implode(', ', …)`, and the backticked column list.
- `Paging` is the specification of the offset loop. `Pages` gives the chunks
  the loop fetches. The lemmas about it give the number of chunks, the
  contents of each chunk, and the rows the chunks concatenate to.
- `Layout` is the specification of the whole output, one string per `fwrite`:
  `Header`, `TableWrites` for each table, `Footer`. Its lemmas cover the
  framing, the table order and the layout of one table.
- `Backup` is the imperative script. The table loop, the chunk loop and the
  row-rendering loop are methods with loop invariants. The table loop and the
  chunk loop are proved to append exactly what `Layout` specifies. The
  row-rendering loop appends nothing to the file: it is proved to build
  exactly the tuples `Render.RenderTuples` specifies.

Three details of the script that the model keeps as they are:

- Table and column names go between backticks, and a backtick inside a name
  is not doubled (`Render.Backticked`).
- Line 61 tests `$count > 0`, so the model skips the INSERT statements for
  any count that is not positive.
- An empty column list renders as a bare pair of backticks
  (`Render.ColumnListQuotesEach`).

## Model

| member | source | states |
|---|---|---|
| Render.Join | shared/supervisor/scripts/db-backup.php:64 | PHP's `implode`: the parts in order with the separator between consecutive parts, used at lines 64, 81 and 86 |
| Render.RenderValue | shared/supervisor/scripts/db-backup.php:77-80 | the per-value closure: bare `NULL` for a null value, `quote(value)` for any other |
| Render.RenderValues | shared/supervisor/scripts/db-backup.php:77-80 | `array_map` of the closure over the row's values, one entry per value in column order |
| Render.RenderTuple | shared/supervisor/scripts/db-backup.php:81 | one tuple: `(`, the rendered values joined by `, `, then `)` |
| Render.ColumnList | shared/supervisor/scripts/db-backup.php:64 | the column list: a backtick, the column names joined by `` `, ` ``, a backtick |
| Layout.Header | shared/supervisor/scripts/db-backup.php:36-43 | the eight header strings: tool line, `-- Generated:` with the timestamp, `-- Database:` with the name, the separator line, then `SET FOREIGN_KEY_CHECKS=0;`, `SET SQL_MODE='NO_AUTO_VALUE_ON_ZERO';`, `SET AUTOCOMMIT=0;`, `START TRANSACTION;` |
| Layout.Footer | shared/supervisor/scripts/db-backup.php:95-96 | the two footer strings `SET FOREIGN_KEY_CHECKS=1;` and `COMMIT;` |
| Layout.DropLine | shared/supervisor/scripts/db-backup.php:52 | `DROP TABLE IF EXISTS` with the table name in backticks and `;` |
| Layout.CreateLine | shared/supervisor/scripts/db-backup.php:56 | the CREATE text verbatim followed by `;` and a blank line |
| Layout.InsertHead | shared/supervisor/scripts/db-backup.php:85 | `INSERT INTO` with the table name in backticks, the column list in parentheses, then `VALUES` |
| Layout.InsertBody | shared/supervisor/scripts/db-backup.php:86 | the tuples joined by `,` and a newline, terminated by `;` and a blank line |
| Layout.InsertWrites | shared/supervisor/scripts/db-backup.php:70-90 | the writes of all fetched chunks in fetch order: per chunk with tuples, its INSERT head then its body; nothing for a chunk without tuples (lines 84-87) |
| Layout.TableWrites | shared/supervisor/scripts/db-backup.php:52-91 | one table's writes: DROP line, CREATE line, then the INSERT writes of its chunks only when the count is positive (line 61), with the column list computed once (line 64) |
| Layout.Body | shared/supervisor/scripts/db-backup.php:48-92 | the writes of every table, concatenated in the order given |
| Layout.DumpWrites | shared/supervisor/scripts/db-backup.php:36-96 | the whole dump: header, every table's writes, footer |
| Render.NullHandling | shared/supervisor/scripts/db-backup.php:77-80 | one rendered entry per value, in row order; an entry is the bare keyword NULL exactly when the value is null (given that the driver's quoting never yields bare NULL); a non-null value renders as its quoted form |
| Render.ValueRoundTrip | shared/supervisor/scripts/db-backup.php:77-80 | a value read back from its rendering (NULL as null, anything else unquoted) is the original value (the text handed to the quoting function), when unquoting inverts the driver's quoting |
| Render.ColumnListQuotesEach | shared/supervisor/scripts/db-backup.php:63-64 | the column list is every column name between backticks, joined by ", ", in the order given; an empty list gives a pair of backticks |
| Render.RenderTuples | shared/supervisor/scripts/db-backup.php:76-82 | a chunk yields exactly one tuple per fetched row |
| Paging.Window | shared/supervisor/scripts/db-backup.php:71 | a fetch holds at most 1000 rows; it is empty exactly when the offset is past the last row; otherwise it holds min(1000, rows left) rows, and they are the rows from the offset on |
| Paging.Pages | shared/supervisor/scripts/db-backup.php:67-90 | with `ChunkSize` = 1000 (line 67), every chunk the loop writes from is non-empty (an empty fetch ends the loop) and holds at most 1000 rows |
| Paging.PageAt | shared/supervisor/scripts/db-backup.php:68-71 | chunk k is fetched at offset offset + 1000 k, and that offset is below both the count and the number of rows |
| Paging.PageCount | shared/supervisor/scripts/db-backup.php:70-73 | from any offset the loop runs ceil((min(count, rows) - offset) / 1000) times, and not at all from an offset at or past that bound |
| Paging.PagesFlatten | shared/supervisor/scripts/db-backup.php:70-89 | the chunks fetched from an offset concatenate to the rows from that offset to the end of the last page, capped at the last row |
| Paging.ChunkCountFromStart | shared/supervisor/scripts/db-backup.php:67-90 | a whole pagination runs ceil(min(count, rows) / 1000) times, and not at all for a count that is not positive |
| Paging.RowsDumped | shared/supervisor/scripts/db-backup.php:67-90 | a whole pagination dumps the first count rows rounded up to a whole page: all rows when the count is not below the number of rows, and up to a page past the count when the count is stale and too small |
| Paging.ExactCount | shared/supervisor/scripts/db-backup.php:67-90 | with an accurate count N the loop runs exactly ceil(N / 1000) times, the chunks concatenate back to the rows, and the total of their sizes is N |
| Paging.TwentyFiveHundredRows | shared/supervisor/scripts/db-backup.php:67-90 | 2500 rows are fetched as three chunks: rows 0-999, 1000-1999 and 2000-2499 |
| Paging.CeilDivIsCeiling | shared/supervisor/scripts/db-backup.php:67-70 | the page-by-page count of pages equals ceil(n / 1000) |
| Paging.RoundUpCovers | shared/supervisor/scripts/db-backup.php:67-89 | n rounded up to whole pages is 1000 times the page count, and covers n with less than one page to spare |
| Layout.Framing | shared/supervisor/scripts/db-backup.php:36-43 | the eight header and preamble writes come first, the two footer writes (`SET FOREIGN_KEY_CHECKS=1;`, `COMMIT;`) come last, and all table output lies between them |
| Layout.BodySnoc | shared/supervisor/scripts/db-backup.php:48-92 | dumping one more table appends exactly that table's writes |
| Layout.TableOrder | shared/supervisor/scripts/db-backup.php:48-92 | tables are written in the order given: each table's output follows every earlier table's and precedes every later table's |
| Layout.TableLayout | shared/supervisor/scripts/db-backup.php:52-90 | a table's output is its DROP line, then its CREATE text with `;`, then nothing more when the count is not positive, and otherwise one INSERT per fetched chunk, each with the same column list and exactly that chunk's tuples, in fetch order |
| Layout.InsertStatementCount | shared/supervisor/scripts/db-backup.php:59-90 | a table whose count equals its N > 0 rows gets ceil(N / 1000) INSERT statements whose chunks concatenate back to its rows |
| Layout.TwentyFiveHundredRowTable | shared/supervisor/scripts/db-backup.php:67-90 | a 2500-row table gets exactly three INSERT statements, with the tuples of rows 0-999, 1000-1999 and 2000-2499 |
| Backup.SqlFile.constructor | shared/supervisor/scripts/db-backup.php:30 | the output file starts empty |
| Backup.SqlFile.Write | shared/supervisor/scripts/db-backup.php:36 | a write appends its string and changes nothing else |
| Backup.RenderChunk | shared/supervisor/scripts/db-backup.php:75-82 | the loop over fetched rows builds exactly one rendered tuple per row, in fetch order |
| Backup.DumpRows | shared/supervisor/scripts/db-backup.php:67-90 | the chunk loop appends exactly the INSERT writes of the chunks `Paging.Pages` specifies |
| Backup.PaginationStep | shared/supervisor/scripts/db-backup.php:70-89 | one pass of the chunk loop: at or past the count, or at an empty fetch, nothing more is written; otherwise the chunk's INSERT comes first, then what the next offset writes |
| Backup.DumpTable | shared/supervisor/scripts/db-backup.php:52-91 | one table appends exactly its DROP line, its CREATE text and, for a positive count, its INSERT statements |
| Backup.WriteHeader | shared/supervisor/scripts/db-backup.php:36-43 | the header comment block and the four-statement preamble are appended, in order |
| Backup.WriteFooter | shared/supervisor/scripts/db-backup.php:95-96 | `SET FOREIGN_KEY_CHECKS=1;` and `COMMIT;` are appended, in that order |
| Backup.Run | shared/supervisor/scripts/db-backup.php:30-96 | a new, initially empty file ends up holding exactly the specified dump: header, every table in order, footer |

## Left out

- Environment lookup, default credentials and the default output path built from `date('Ymd_His')` (lines 8-15) are configuration and clock reads, not logic.
- The generation timestamp (line 37) and the database name (line 38) are plain string parameters of `Backup.Run`.
- PDO connection setup and the SQL the engine executes (lines 19-27, 46, 55, 59, 63, 71) are foreign calls. Their results are fields of `Layout.Table`, and the windowed select is the slice `Paging.Window`. Streaming unbuffered result sets is a memory concern and is not modelled.
- `fetchAll(PDO::FETCH_ASSOC)` followed by `array_values` (lines 71, 80) becomes a row given directly as its values in column order.
- `$count` comes from `fetchColumn` (line 59), as a PHP int or a numeric string depending on the driver, and line 61 compares it with a number. The model takes it as an `int`.
- Render.ValueRoundTrip: a value is the string handed to `quote`. The driver may return INT and FLOAT/DOUBLE columns as native PHP numbers, which line 79 converts to text before quoting. That conversion is not modelled and can drop float digits (PHP's default `precision` keeps 14 significant digits), so the round trip holds for the text handed to `quote`, not for the stored number.
- The escaping rules inside `PDO::quote` (line 79) are driver code that cannot be seen. `quote` is an arbitrary function. Only `Render.NullHandling` and `Render.ValueRoundTrip` assume anything about it, namely that it never yields bare `NULL` and that it has an inverse.
- File I/O (`fopen`, `fwrite`, `fclose`; lines 30-33, 98) becomes appends to `Backup.SqlFile`. The case where the file cannot be opened is not modelled.
- The progress `echo` (line 49), the `filesize` call and the MB/KB formatting with floating-point `round` (lines 100-105) are output and floating-point display.
- Exceptions and exit codes (lines 108-111) are not modelled. A query that fails mid-dump aborts the script and leaves the file without its footer; the model covers only runs in which every query succeeds.
- Row order across `LIMIT/OFFSET` fetches without `ORDER BY` is decided by the engine. The model takes one fixed row sequence that every fetch slices, so it does not capture rows skipped or repeated by an unstable order.
