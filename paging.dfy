/**
 * The pagination of one table's rows (shared/supervisor/scripts/db-backup.php,
 * lines 67-90): offsets 0, C, 2C, ... while the offset is below the row count
 * read beforehand, each fetch being `LIMIT C OFFSET offset`, stopping early at
 * the first empty fetch. The row count and the rows are separate inputs, so a
 * count that has gone stale is part of the model.
 */
module Paging {
  import opened Seqs

  /** `$chunkSize`. */
  const ChunkSize: nat := 1000

  /** Number of pages needed for `n` rows, one full page at a time. */
  function CeilDiv(n: nat): nat
  {
    if n == 0 then 0 else if n <= ChunkSize then 1 else 1 + CeilDiv(n - ChunkSize)
  }

  /** `n` rounded up to a whole number of pages (0 when `n` is not positive). */
  function RoundUp(n: int): nat
    decreases n
  {
    if n <= 0 then 0 else ChunkSize + RoundUp(n - ChunkSize)
  }

  /** The page count is ceil(n / ChunkSize). */
  lemma {:induction false} CeilDivIsCeiling(n: nat)
    ensures CeilDiv(n) == (n + ChunkSize - 1) / ChunkSize
  {
    if n > ChunkSize {
      CeilDivIsCeiling(n - ChunkSize);
    }
  }

  /** Rounding up to whole pages gives the page count times the page size, covering `n` with less than a page to spare. */
  lemma {:induction false} RoundUpCovers(n: nat)
    ensures RoundUp(n) == ChunkSize * CeilDiv(n)
    ensures n <= RoundUp(n) < n + ChunkSize
  {
    if n > ChunkSize {
      RoundUpCovers(n - ChunkSize);
    } else if n > 0 {
      assert RoundUp(n - ChunkSize) == 0;
    }
  }

  /** Rounding up is monotone. */
  lemma {:induction false} RoundUpMonotone(a: int, b: int)
    requires a <= b
    ensures RoundUp(a) <= RoundUp(b)
    decreases b
  {
    if a > 0 {
      RoundUpMonotone(a - ChunkSize, b - ChunkSize);
    }
  }

  /** `SELECT * ... LIMIT ChunkSize OFFSET offset` against the table's rows. */
  function Window<T>(rows: seq<T>, offset: nat): (w: seq<T>)
    ensures |w| <= ChunkSize
    ensures w != [] <==> offset < |rows|
    ensures offset < |rows| ==> |w| == Min(ChunkSize, |rows| - offset)
    ensures forall i :: 0 <= i < |w| ==> offset + i < |rows| && w[i] == rows[offset + i]
  {
    if offset < |rows| then rows[offset..Min(offset + ChunkSize, |rows|)] else []
  }

  /**
   * The chunks fetched by the loop starting at `offset`, in fetch order.
   * Every chunk is non-empty (an empty fetch ends the loop) and holds at most
   * ChunkSize rows.
   */
  function Pages<T>(rows: seq<T>, count: int, offset: nat): (pages: seq<seq<T>>)
    ensures forall k :: 0 <= k < |pages| ==> 0 < |pages[k]| <= ChunkSize
    decreases count - offset
  {
    if offset >= count then []
    else
      var chunk := Window(rows, offset);
      if chunk == [] then [] else [chunk] + Pages(rows, count, offset + ChunkSize)
  }

  /**
   * Chunk `k` is the window at offset `offset + k * ChunkSize`, and that offset
   * is below the row count: the loop visits offsets in steps of ChunkSize.
   */
  lemma {:induction false} PageAt<T>(rows: seq<T>, count: int, offset: nat, k: nat)
    requires k < |Pages(rows, count, offset)|
    ensures offset + k * ChunkSize < count
    ensures offset + k * ChunkSize < |rows|
    ensures Pages(rows, count, offset)[k] == Window(rows, offset + k * ChunkSize)
    decreases count - offset
  {
    if k > 0 {
      PageAt(rows, count, offset + ChunkSize, k - 1);
    }
  }

  /**
   * The loop runs ceil((min(count, |rows|) - offset) / ChunkSize) times: it stops
   * at the count, or earlier at the first empty fetch past the last row.
   */
  lemma {:induction false} PageCount<T>(rows: seq<T>, count: int, offset: nat)
    ensures |Pages(rows, count, offset)| == CeilDiv(Max(0, Min(count, |rows|) - offset))
    decreases count - offset
  {
    if offset < Min(count, |rows|) {
      PageCount(rows, count, offset + ChunkSize);
    }
  }

  /**
   * The fetched chunks concatenate to the rows from `offset` up to the end of
   * the last page, capped at the last row.
   */
  lemma {:induction false} PagesFlatten<T>(rows: seq<T>, count: int, offset: nat)
    ensures Flatten(Pages(rows, count, offset))
         == rows[Min(offset, |rows|)..Min(|rows|, offset + RoundUp(Min(count, |rows|) - offset))]
    decreases count - offset
  {
    var pages := Pages(rows, count, offset);
    var m := Min(count, |rows|);
    if offset < m {
      var chunk := Window(rows, offset);
      var next := offset + ChunkSize;
      var rest := Pages(rows, count, next);
      var mid := Min(next, |rows|);
      var end := Min(|rows|, next + RoundUp(m - next));
      PagesFlatten(rows, count, next);
      assert pages == [chunk] + rest;
      assert Flatten(pages) == chunk + Flatten(rest) by {
        assert ([chunk] + rest)[1..] == rest;
      }
      assert offset + RoundUp(m - offset) == next + RoundUp(m - next);
      assert chunk == rows[offset..mid];
      SliceSplit(rows, offset, mid, end);
    }
  }

  /** Rounding min(count, len) up and capping at len is rounding count up and capping. */
  lemma RoundUpCapped(len: nat, count: int)
    ensures Min(len, RoundUp(Min(count, len))) == Min(len, RoundUp(count))
  {
    if count > len {
      RoundUpCovers(len);
      RoundUpMonotone(len, count);
    }
  }

  /**
   * A whole pagination from offset 0 runs ceil(min(count, |rows|) / ChunkSize)
   * times (none when the count is not positive).
   */
  lemma ChunkCountFromStart<T>(rows: seq<T>, count: int)
    ensures |Pages(rows, count, 0)| == CeilDiv(Max(0, Min(count, |rows|)))
  {
    PageCount(rows, count, 0);
  }

  /**
   * A whole pagination from offset 0 dumps the first `count` rows rounded up to
   * a whole page: all rows when `count` is at least the number of rows, and up
   * to a page more than `count` rows when the count is stale and too small.
   */
  lemma RowsDumped<T>(rows: seq<T>, count: int)
    ensures Flatten(Pages(rows, count, 0)) == rows[..Min(|rows|, RoundUp(count))]
  {
    PagesFlatten(rows, count, 0);
    RoundUpCapped(|rows|, count);
    assert 0 + RoundUp(Min(count, |rows|) - 0) == RoundUp(Min(count, |rows|));
  }

  /**
   * With an accurate count the loop runs exactly ceil(count / ChunkSize) times and
   * the chunks concatenate back to the rows; their total size is the count.
   */
  lemma ExactCount<T>(rows: seq<T>, count: int)
    requires count == |rows|
    ensures |Pages(rows, count, 0)| == CeilDiv(count)
    ensures Flatten(Pages(rows, count, 0)) == rows
    ensures |Flatten(Pages(rows, count, 0))| == count
  {
    ChunkCountFromStart(rows, count);
    RowsDumped(rows, count);
    RoundUpCovers(count);
  }

  /** 2500 rows are fetched as three chunks of 1000, 1000 and 500 rows, in that order. */
  lemma TwentyFiveHundredRows<T>(rows: seq<T>)
    requires |rows| == 2500
    ensures var pages := Pages(rows, 2500, 0);
            |pages| == 3 && pages[0] == rows[..1000] && pages[1] == rows[1000..2000] && pages[2] == rows[2000..]
  {
    PageCount(rows, 2500, 0);
    PageAt(rows, 2500, 0, 0);
    PageAt(rows, 2500, 0, 1);
    PageAt(rows, 2500, 0, 2);
  }
}
