/**
 * Rendering of identifiers, values and row tuples into MySQL text
 * (shared/supervisor/scripts/db-backup.php, lines 64 and 76-86).
 * The driver's literal quoting function `PDO::quote` is a parameter `quote`
 * whose escaping rules are not modelled.
 */
module Render {
  import opened Wrappers

  /** A column value as the text handed to `quote`, or SQL NULL (numeric values are taken already converted to text). */
  type Value = Option<string>

  /** A row: its values in column order. */
  type Row = seq<Value>

  const Null: string := "NULL"

  /** PHP's `implode(sep, parts)`. */
  function Join(sep: string, parts: seq<string>): string
  {
    if |parts| == 0 then ""
    else if |parts| == 1 then parts[0]
    else parts[0] + sep + Join(sep, parts[1..])
  }

  /** The per-value closure: NULL stays a bare keyword, everything else goes through `quote`. */
  function RenderValue(v: Value, quote: string -> string): string
  {
    match v
    case None => Null
    case Some(s) => quote(s)
  }

  /** `array_map` of the closure over the row's values. */
  function RenderValues(row: Row, quote: string -> string): seq<string>
  {
    seq(|row|, i requires 0 <= i < |row| => RenderValue(row[i], quote))
  }

  /** One tuple `(v1, v2, ...)` of a multi-row INSERT. */
  function RenderTuple(row: Row, quote: string -> string): string
  {
    "(" + Join(", ", RenderValues(row, quote)) + ")"
  }

  /** The tuples of a fetched chunk, one per row, in fetch order. */
  function RenderTuples(rows: seq<Row>, quote: string -> string): (tuples: seq<string>)
    ensures |tuples| == |rows|
  {
    seq(|rows|, i requires 0 <= i < |rows| => RenderTuple(rows[i], quote))
  }

  /** An identifier between backticks (embedded backticks are not escaped, as in the script). */
  function Backticked(name: string): string
  {
    "`" + name + "`"
  }

  /** The column list as the script builds it: one `implode` with "`, `" inside a pair of backticks. */
  function ColumnList(columns: seq<string>): string
  {
    "`" + Join("`, `", columns) + "`"
  }

  /** A driver quoting function never produces the bare keyword NULL (PDO::quote always adds quotes). */
  ghost predicate NeverBareNull(quote: string -> string)
  {
    forall s :: quote(s) != Null
  }

  /** How a restore reads back one rendered value, given the inverse of the driver's quoting. */
  function ParseValue(text: string, unquote: string -> string): (v: Value)
    ensures v.None? <==> text == Null
  {
    if text == Null then None else Some(unquote(text))
  }

  /**
   * Null handling is exact: a rendered entry is the bare NULL keyword exactly when
   * the value is null, and there is one entry per value, in row order.
   */
  lemma NullHandling(row: Row, quote: string -> string)
    requires NeverBareNull(quote)
    ensures |RenderValues(row, quote)| == |row|
    ensures forall i :: 0 <= i < |row| ==> (RenderValues(row, quote)[i] == Null <==> row[i].None?)
    ensures forall i :: 0 <= i < |row| && row[i].Some? ==> RenderValues(row, quote)[i] == quote(row[i].value)
  {
  }

  /** A value survives rendering and reading back when `unquote` inverts `quote`. */
  lemma ValueRoundTrip(v: Value, quote: string -> string, unquote: string -> string)
    requires NeverBareNull(quote)
    requires forall s :: unquote(quote(s)) == s
    ensures ParseValue(RenderValue(v, quote), unquote) == v
  {
  }

  /**
   * The column list is every column name between backticks, joined by ", ",
   * in the order given; an empty column list degenerates to a pair of backticks.
   */
  lemma {:induction false} ColumnListQuotesEach(columns: seq<string>)
    ensures columns == [] ==> ColumnList(columns) == "``"
    ensures columns != [] ==>
              ColumnList(columns) == Join(", ", seq(|columns|, i requires 0 <= i < |columns| => Backticked(columns[i])))
  {
    if |columns| > 1 {
      var quoted := seq(|columns|, i requires 0 <= i < |columns| => Backticked(columns[i]));
      var rest := columns[1..];
      ColumnListQuotesEach(rest);
      assert quoted[1..] == seq(|rest|, i requires 0 <= i < |rest| => Backticked(rest[i]));
      calc {
        ColumnList(columns);
        "`" + (columns[0] + "`, `" + Join("`, `", rest)) + "`";
        Backticked(columns[0]) + ", " + ("`" + Join("`, `", rest) + "`");
        Backticked(columns[0]) + ", " + Join(", ", quoted[1..]);
        Join(", ", quoted);
      }
    }
  }
}
