/** The tile plane: `width` columns of `height` cells, stored column-major
    as records whose runs never cross a column edge (decoded at
    src/read.rs:280-364, encoded at src/write.rs:252-347). */
module PlaneFormat {
  import opened Structs
  import opened Wire
  import opened TileFormat
  import Arith

  // ---------------------------------------------------------------------
  // Decoder
  // ---------------------------------------------------------------------

  /** The `left` remaining cells of a column.  A record that repeats its
      tile past the column's end is fatal (`y != height`). */
  function ReadColumn(s: Bytes, importance: seq<bool>, left: nat): Result<Parsed<seq<Tile>>>
    decreases left
  {
    if left == 0 then Ok(Parsed([], s))
    else
      var r :- ReadRecord(s, importance);
      var n := r.value.count + 1;
      if n > left then Err(ColumnOverrun)
      else
        var more :- ReadColumn(r.rest, importance, left - n);
        Ok(Parsed(Repeat(r.value.tile, n) + more.value, more.rest))
  }

  /** `n` references to one tile (`for _ in 0..k+1 { tiles.push(..) }`). */
  function Repeat(t: Tile, n: nat): (r: seq<Tile>)
    ensures |r| == n && forall i :: 0 <= i < n ==> r[i] == t
  {
    seq(n, _ => t)
  }

  /** `width` columns of `height` cells each, left to right. */
  function ReadPlane(s: Bytes, importance: seq<bool>, width: nat, height: nat): Result<Parsed<seq<Tile>>>
    decreases width
  {
    if width == 0 then Ok(Parsed([], s))
    else
      var column :- ReadColumn(s, importance, height);
      var more :- ReadPlane(column.rest, importance, width - 1, height);
      Ok(Parsed(column.value + more.value, more.rest))
  }

  // ---------------------------------------------------------------------
  // Encoder
  // ---------------------------------------------------------------------

  predicate AllCovered(cells: seq<Tile>, importance: seq<bool>)
  {
    forall i :: 0 <= i < |cells| ==> Covered(cells[i], importance)
  }

  /** `n` cells make whole columns of `height` cells: `n` is a column
      edge, where the encoder's `i % height == 0` holds. */
  predicate Edge(n: nat, height: nat)
    decreases n
  {
    n == 0 || (0 < height <= n && Edge(n - height, height))
  }

  /** A column edge is a multiple of the height. */
  lemma {:induction false} EdgeMod(n: nat, height: nat)
    requires 0 < height
    ensures Edge(n, height) <==> n % height == 0
    decreases n
  {
    if n < height {
      Arith.DivModUnique(n, height, 0, n);
    } else {
      EdgeMod(n - height, height);
      Arith.DivModUnique(n, height, (n - height) / height + 1, (n - height) % height);
    }
  }

  /** `width` whole columns end at a column edge. */
  lemma {:induction false} EdgeProduct(width: nat, height: nat)
    ensures Edge(width * height, height)
  {
    if width > 0 && height > 0 {
      EdgeProduct(width - 1, height);
      assert width * height - height == (width - 1) * height;
      Arith.MulAtLeast(width, height);
    }
  }

  /** The start of the next column is still a column start, within the cells. */
  lemma {:induction false} NextColumn(n: nat, height: nat, start: nat)
    requires 0 < height && Edge(n, height) && Edge(start, height) && start < n
    ensures start + height <= n && Edge(start + height, height)
    decreases start
  {
    if start > 0 {
      NextColumn(n - height, height, start - height);
    }
  }

  /** Where the run that starts at `i` ends, scanning from `j`: at the next
      column edge or the first different tile. */
  function RunEnd(cells: seq<Tile>, height: nat, i: nat, j: nat): (e: nat)
    requires height > 0 && Edge(|cells|, height) && i < j <= |cells|
    decreases |cells| - j
    ensures j <= e <= |cells|
  {
    if Edge(j, height) then j
    else if cells[j] != cells[i] then j
    else RunEnd(cells, height, i, j + 1)
  }

  /** The cells `RunEnd` steps over repeat the run's tile. */
  lemma {:induction false} RunEndSame(cells: seq<Tile>, height: nat, i: nat, j: nat)
    requires height > 0 && Edge(|cells|, height) && i < j <= |cells|
    decreases |cells| - j
    ensures forall m :: j <= m < RunEnd(cells, height, i, j) ==> cells[m] == cells[i]
  {
    if !Edge(j, height) && cells[j] == cells[i] {
      RunEndSame(cells, height, i, j + 1);
    }
  }

  /** The cells `RunEnd` steps over are not column edges. */
  lemma {:induction false} RunEndInside(cells: seq<Tile>, height: nat, i: nat, j: nat)
    requires height > 0 && Edge(|cells|, height) && i < j <= |cells|
    decreases |cells| - j
    ensures forall m :: j <= m < RunEnd(cells, height, i, j) ==> !Edge(m, height)
  {
    if !Edge(j, height) && cells[j] == cells[i] {
      RunEndInside(cells, height, i, j + 1);
    }
  }

  /** `RunEnd` stops at a column edge or at a tile different from the
      run's: a run is as long as the column lets it be. */
  lemma {:induction false} RunEndStops(cells: seq<Tile>, height: nat, i: nat, j: nat)
    requires height > 0 && Edge(|cells|, height) && i < j <= |cells|
    decreases |cells| - j
    ensures var e := RunEnd(cells, height, i, j);
      Edge(e, height) || cells[e] != cells[i]
  {
    if !Edge(j, height) && cells[j] == cells[i] {
      RunEndStops(cells, height, i, j + 1);
    }
  }

  /** The record the encoder writes for a tile repeated in `k` further
      cells.  Every cell the encoder reaches is covered by the importance
      table (`PlaneBytes` requires it); the empty string for the others is
      never written. */
  function TileRecord(importance: seq<bool>): (Tile, nat) -> Bytes
  {
    (t: Tile, k: nat) => if Covered(t, importance) then RecordBytes(t, k, importance) else []
  }

  /** The records for cells `i..`, each written by `record` from a tile and
      its number of further repeats.  The splitting into runs does not
      depend on how one record is laid out, so the lemmas about it take
      the record writer as a parameter. */
  function EncodeRuns(cells: seq<Tile>, height: nat, record: (Tile, nat) -> Bytes, i: nat): Bytes
    requires height > 0 && Edge(|cells|, height) && i <= |cells|
    decreases |cells| - i
  {
    if i == |cells| then []
    else
      var e := RunEnd(cells, height, i, i + 1);
      record(cells[i], e - i - 1) + EncodeRuns(cells, height, record, e)
  }

  /** The encoder's demand on its input: at least `width * height` cells,
      each of them covered by the importance table. */
  predicate PlaneCovered(cells: seq<Tile>, width: u32, height: u32, importance: seq<bool>)
  {
    width * height <= |cells| && AllCovered(cells[..width * height], importance)
  }

  function PlaneBytes(cells: seq<Tile>, width: u32, height: u32, importance: seq<bool>): Bytes
    requires PlaneCovered(cells, width, height, importance)
  {
    if height == 0 then []
    else
      EdgeProduct(width, height);
      EncodeRuns(cells[..width * height], height, TileRecord(importance), 0)
  }

  /** Every cell as the decoder rebuilds it. */
  function NormalizeAll(cells: seq<Tile>, importance: seq<bool>): (r: seq<Tile>)
    requires AllCovered(cells, importance)
    ensures |r| == |cells|
  {
    seq(|cells|, i requires 0 <= i < |cells| => Normalize(cells[i], importance))
  }

  // ---------------------------------------------------------------------
  // Records as the decoder sees them: a column is the concatenation of
  // byte chunks, one per run, each of which decodes to its run whatever
  // follows it.
  // ---------------------------------------------------------------------

  /** The cells a list of runs stands for. */
  ghost function Expand(runs: seq<Run>): seq<Tile>
  {
    if runs == [] then [] else Repeat(runs[0].tile, runs[0].count + 1) + Expand(runs[1..])
  }

  ghost function Concat(chunks: seq<Bytes>): Bytes
  {
    if chunks == [] then [] else chunks[0] + Concat(chunks[1..])
  }

  /** `chunk` is a record that decodes to `run` whatever follows it. */
  ghost predicate RecordReads(chunk: Bytes, run: Run, importance: seq<bool>)
  {
    forall r :: ReadRecord(chunk + r, importance) == Ok(Parsed(run, r))
  }

  /** Chunk `j` is a record that decodes to run `j`. */
  ghost predicate Decodes(chunks: seq<Bytes>, runs: seq<Run>, importance: seq<bool>)
  {
    |chunks| == |runs| &&
    forall j :: 0 <= j < |chunks| ==> RecordReads(chunks[j], runs[j], importance)
  }

  /** Every record `record` writes for a covered tile decodes to the
      tile, normalized, and its repeat count. */
  ghost predicate Inverts(record: (Tile, nat) -> Bytes, importance: seq<bool>)
  {
    forall t: Tile, k: nat :: Covered(t, importance) && k < 0x1_0000 ==>
      RecordReads(record(t, k), Run(Normalize(t, importance), k), importance)
  }

  /** The runs of column cells `i..colEnd`, each tile normalized. */
  ghost function ColumnRuns(cells: seq<Tile>, height: nat, importance: seq<bool>, i: nat, colEnd: nat): (runs: seq<Run>)
    requires 0 < height <= 0x1_0000 && Edge(|cells|, height) && AllCovered(cells, importance)
    requires Edge(colEnd, height) && colEnd - height <= i <= colEnd <= |cells|
    decreases colEnd - i
  {
    if i == colEnd then []
    else
      var e := RunEnd(cells, height, i, i + 1);
      RunInColumn(cells, height, i, colEnd);
      [Run(Normalize(cells[i], importance), e - i - 1)] + ColumnRuns(cells, height, importance, e, colEnd)
  }

  /** The records `record` writes for column cells `i..colEnd`. */
  ghost function ColumnChunks(cells: seq<Tile>, height: nat, record: (Tile, nat) -> Bytes, i: nat, colEnd: nat): (chunks: seq<Bytes>)
    requires 0 < height && Edge(|cells|, height)
    requires Edge(colEnd, height) && i <= colEnd <= |cells|
    decreases colEnd - i
  {
    if i == colEnd then []
    else
      var e := RunEnd(cells, height, i, i + 1);
      RunInColumn(cells, height, i, colEnd);
      [record(cells[i], e - i - 1)] + ColumnChunks(cells, height, record, e, colEnd)
  }

  /** Cells of consecutive columns, in order. */
  ghost function Flatten(columns: seq<seq<Tile>>): seq<Tile>
  {
    if columns == [] then [] else columns[0] + Flatten(columns[1..])
  }

  /** `chunk` is a column that decodes to `column` whatever follows it. */
  ghost predicate ColumnReads(chunk: Bytes, column: seq<Tile>, importance: seq<bool>, height: nat)
  {
    forall r :: ReadColumn(chunk + r, importance, height) == Ok(Parsed(column, r))
  }

  /** Chunk `j` is a column that decodes to `columns[j]`. */
  ghost predicate DecodesColumns(chunks: seq<Bytes>, columns: seq<seq<Tile>>, importance: seq<bool>, height: nat)
  {
    |chunks| == |columns| &&
    forall j :: 0 <= j < |chunks| ==> ColumnReads(chunks[j], columns[j], importance, height)
  }

  /** The bytes `record` writes for each column from cell `start` on. */
  ghost function PlaneColumns(cells: seq<Tile>, height: nat, record: (Tile, nat) -> Bytes, start: nat): seq<Bytes>
    requires 0 < height && Edge(|cells|, height)
    requires Edge(start, height) && start <= |cells|
    decreases |cells| - start
  {
    if start == |cells| then []
    else
      NextColumn(|cells|, height, start);
      [Concat(ColumnChunks(cells, height, record, start, start + height))]
      + PlaneColumns(cells, height, record, start + height)
  }

  /** The decoder's cells for each column from cell `start` on. */
  ghost function PlaneCells(cells: seq<Tile>, height: nat, importance: seq<bool>, start: nat): seq<seq<Tile>>
    requires 0 < height && Edge(|cells|, height) && AllCovered(cells, importance)
    requires Edge(start, height) && start <= |cells|
    decreases |cells| - start
  {
    if start == |cells| then []
    else
      NextColumn(|cells|, height, start);
      [NormalizeAll(cells[start..start + height], importance)]
      + PlaneCells(cells, height, importance, start + height)
  }

  // ---------------------------------------------------------------------
  // Lemmas
  // ---------------------------------------------------------------------

  /** A run found by `RunEnd` never leaves the column it starts in. */
  lemma RunInColumn(cells: seq<Tile>, height: nat, i: nat, colEnd: nat)
    requires height > 0 && Edge(|cells|, height) && i < colEnd <= |cells|
    requires Edge(colEnd, height)
    ensures RunEnd(cells, height, i, i + 1) <= colEnd
  {
    RunEndInside(cells, height, i, i + 1);
  }

  /** Records that decode to their runs, read as a column as long as all
      of them together, give those runs' cells. */
  lemma {:induction false} ReadRuns(chunks: seq<Bytes>, runs: seq<Run>, importance: seq<bool>, left: nat, rest: Bytes)
    requires Decodes(chunks, runs, importance) && left == |Expand(runs)|
    ensures ReadColumn(Concat(chunks) + rest, importance, left) == Ok(Parsed(Expand(runs), rest))
  {
    if chunks == [] {
      assert Concat(chunks) + rest == rest;
      assert Expand(runs) == [] && left == 0;
      assert ReadColumn(rest, importance, 0) == Ok(Parsed([], rest));
    } else {
      var mid := Concat(chunks[1..]) + rest;
      assert Decodes(chunks[1..], runs[1..], importance) by {
        forall j | 0 <= j < |chunks| - 1
          ensures RecordReads(chunks[1..][j], runs[1..][j], importance)
        {
          assert chunks[1..][j] == chunks[j + 1];
        }
      }
      var more := Expand(runs[1..]);
      ReadRuns(chunks[1..], runs[1..], importance, |more|, rest);
      var s := Concat(chunks) + rest;
      assert s == chunks[0] + mid by {
        Assoc(chunks[0], Concat(chunks[1..]), rest);
      }
      assert ReadRecord(s, importance) == Ok(Parsed(runs[0], mid)) by {
        assert RecordReads(chunks[0], runs[0], importance);
      }
      assert Expand(runs) == Repeat(runs[0].tile, runs[0].count + 1) + more;
      ReadColumnStep(s, importance, left, runs[0], mid, more, rest);
      assert ReadColumn(s, importance, left) == Ok(Parsed(Expand(runs), rest));
    }
  }

  /** `ReadColumn` assembled from one record and the rest of the column. */
  lemma ReadColumnStep(s: Bytes, importance: seq<bool>, left: nat, r: Run, mid: Bytes,
                       more: seq<Tile>, rest: Bytes)
    requires 0 < r.count + 1 <= left
    requires ReadRecord(s, importance) == Ok(Parsed(r, mid))
    requires ReadColumn(mid, importance, left - (r.count + 1)) == Ok(Parsed(more, rest))
    ensures ReadColumn(s, importance, left) == Ok(Parsed(Repeat(r.tile, r.count + 1) + more, rest))
  {
  }

  /** The output from cell `i` on is the record of the run at `i`, then
      the output from where that run ends. */
  lemma EncodeRunsHead(cells: seq<Tile>, height: nat, record: (Tile, nat) -> Bytes, i: nat)
    requires height > 0 && Edge(|cells|, height) && i < |cells|
    ensures EncodeRuns(cells, height, record, i)
         == record(cells[i], RunEnd(cells, height, i, i + 1) - i - 1)
            + EncodeRuns(cells, height, record, RunEnd(cells, height, i, i + 1))
  {
  }

  /** The encoder's output from the start of a column on is that column's
      records, then the later columns'. */
  lemma {:induction false} ChunksEncode(cells: seq<Tile>, height: nat, record: (Tile, nat) -> Bytes, i: nat, colEnd: nat)
    requires 0 < height && Edge(|cells|, height)
    requires Edge(colEnd, height) && i <= colEnd <= |cells|
    decreases colEnd - i
    ensures EncodeRuns(cells, height, record, i)
         == Concat(ColumnChunks(cells, height, record, i, colEnd)) + EncodeRuns(cells, height, record, colEnd)
  {
    if i < colEnd {
      var e := RunEnd(cells, height, i, i + 1);
      RunInColumn(cells, height, i, colEnd);
      var tail := ColumnChunks(cells, height, record, e, colEnd);
      EncodeRunsHead(cells, height, record, i);
      ChunksEncode(cells, height, record, e, colEnd);
      ConcatCons(record(cells[i], e - i - 1), tail, EncodeRuns(cells, height, record, colEnd));
    } else {
      var none: seq<Bytes> := [];
      assert Concat(none) + EncodeRuns(cells, height, record, colEnd) == EncodeRuns(cells, height, record, colEnd);
    }
  }

  lemma ConcatCons(chunk: Bytes, chunks: seq<Bytes>, rest: Bytes)
    ensures Concat([chunk] + chunks) + rest == chunk + (Concat(chunks) + rest)
  {
    assert ([chunk] + chunks)[1..] == chunks;
    Assoc(chunk, Concat(chunks), rest);
  }

  /** Each record the encoder writes for a column decodes to its run. */
  lemma {:induction false} ChunksDecode(cells: seq<Tile>, height: nat, record: (Tile, nat) -> Bytes,
                                        importance: seq<bool>, i: nat, colEnd: nat)
    requires 0 < height <= 0x1_0000 && Edge(|cells|, height) && AllCovered(cells, importance)
    requires Edge(colEnd, height) && colEnd - height <= i <= colEnd <= |cells|
    requires Inverts(record, importance)
    decreases colEnd - i
    ensures Decodes(ColumnChunks(cells, height, record, i, colEnd),
                    ColumnRuns(cells, height, importance, i, colEnd), importance)
  {
    if i < colEnd {
      var e := RunEnd(cells, height, i, i + 1);
      RunInColumn(cells, height, i, colEnd);
      var k := e - i - 1;
      ChunksDecode(cells, height, record, importance, e, colEnd);
      assert Covered(cells[i], importance);
      DecodesCons(record(cells[i], k), Run(Normalize(cells[i], importance), k),
                  ColumnChunks(cells, height, record, e, colEnd),
                  ColumnRuns(cells, height, importance, e, colEnd), importance);
    }
  }

  /** The encoder's records decode to their runs whatever follows them. */
  lemma RecordsInvert(importance: seq<bool>)
    ensures Inverts(TileRecord(importance), importance)
  {
    forall t: Tile, k: nat | Covered(t, importance) && k < 0x1_0000
      ensures RecordReads(TileRecord(importance)(t, k), Run(Normalize(t, importance), k), importance)
    {
      assert TileRecord(importance)(t, k) == RecordBytes(t, k, importance);
      forall r {
        RecordRoundTrip(t, k, k, importance, r);
      }
    }
  }

  lemma DecodesCons(chunk: Bytes, run: Run, chunks: seq<Bytes>, runs: seq<Run>, importance: seq<bool>)
    requires Decodes(chunks, runs, importance)
    requires RecordReads(chunk, run, importance)
    ensures Decodes([chunk] + chunks, [run] + runs, importance)
  {
    forall j | 0 <= j < |chunks| + 1
      ensures RecordReads(([chunk] + chunks)[j], ([run] + runs)[j], importance)
    {
      if j > 0 {
        assert ([chunk] + chunks)[j] == chunks[j - 1];
      }
    }
  }

  /** The runs of a column stand for its normalized cells. */
  lemma {:induction false} RunsExpand(cells: seq<Tile>, height: nat, importance: seq<bool>, i: nat, colEnd: nat)
    requires 0 < height <= 0x1_0000 && Edge(|cells|, height) && AllCovered(cells, importance)
    requires Edge(colEnd, height) && colEnd - height <= i <= colEnd <= |cells|
    decreases colEnd - i
    ensures Expand(ColumnRuns(cells, height, importance, i, colEnd)) == NormalizeAll(cells[i..colEnd], importance)
  {
    if i < colEnd {
      var e := RunEnd(cells, height, i, i + 1);
      RunInColumn(cells, height, i, colEnd);
      var run := Run(Normalize(cells[i], importance), e - i - 1);
      var tail := ColumnRuns(cells, height, importance, e, colEnd);
      RunsExpand(cells, height, importance, e, colEnd);
      ExpandCons(run, tail);
      RunEndSame(cells, height, i, i + 1);
      SameRun(cells, importance, i, e, colEnd);
    } else {
      assert NormalizeAll(cells[i..colEnd], importance) == [];
    }
  }

  lemma ExpandCons(run: Run, runs: seq<Run>)
    ensures Expand([run] + runs) == Repeat(run.tile, run.count + 1) + Expand(runs)
  {
    assert ([run] + runs)[1..] == runs;
  }

  /** Cells `i..e` all equal to cell `i`, normalized, are one repeated
      tile in front of the normalized cells `e..colEnd`. */
  lemma SameRun(cells: seq<Tile>, importance: seq<bool>, i: nat, e: nat, colEnd: nat)
    requires i < e <= colEnd <= |cells| && AllCovered(cells, importance)
    requires forall m :: i + 1 <= m < e ==> cells[m] == cells[i]
    ensures Repeat(Normalize(cells[i], importance), e - i) + NormalizeAll(cells[e..colEnd], importance)
         == NormalizeAll(cells[i..colEnd], importance)
  {
    var run := Repeat(Normalize(cells[i], importance), e - i);
    var later := NormalizeAll(cells[e..colEnd], importance);
    var all := NormalizeAll(cells[i..colEnd], importance);
    forall m | 0 <= m < |all|
      ensures (run + later)[m] == all[m]
    {
      if m < e - i {
        assert cells[i..colEnd][m] == cells[i + m];
      } else {
        assert cells[e..colEnd][m - (e - i)] == cells[i + m];
      }
    }
  }

  /** A column's records, whatever follows them, read back as the
      column's normalized cells. */
  lemma ColumnRoundTrip(cells: seq<Tile>, height: nat, record: (Tile, nat) -> Bytes,
                         importance: seq<bool>, i: nat, colEnd: nat)
    requires 0 < height <= 0x1_0000 && Edge(|cells|, height)
    requires AllCovered(cells, importance) && Inverts(record, importance)
    requires Edge(colEnd, height) && colEnd - height == i && colEnd <= |cells|
    ensures ColumnReads(Concat(ColumnChunks(cells, height, record, i, colEnd)),
                        NormalizeAll(cells[i..colEnd], importance), importance, height)
  {
    var chunks := ColumnChunks(cells, height, record, i, colEnd);
    var runs := ColumnRuns(cells, height, importance, i, colEnd);
    ChunksDecode(cells, height, record, importance, i, colEnd);
    RunsExpand(cells, height, importance, i, colEnd);
    forall r {
      ReadRuns(chunks, runs, importance, height, r);
    }
  }

  /** Columns that decode one by one read back as a plane. */
  lemma {:induction false} ReadColumns(chunks: seq<Bytes>, columns: seq<seq<Tile>>, importance: seq<bool>,
                                       height: nat, width: nat, rest: Bytes)
    requires DecodesColumns(chunks, columns, importance, height) && width == |chunks|
    ensures ReadPlane(Concat(chunks) + rest, importance, width, height) == Ok(Parsed(Flatten(columns), rest))
  {
    if chunks == [] {
      assert Concat(chunks) + rest == rest;
    } else {
      var mid := Concat(chunks[1..]) + rest;
      assert DecodesColumns(chunks[1..], columns[1..], importance, height) by {
        forall j | 0 <= j < |chunks| - 1
          ensures ColumnReads(chunks[1..][j], columns[1..][j], importance, height)
        {
          assert chunks[1..][j] == chunks[j + 1];
        }
      }
      ReadColumns(chunks[1..], columns[1..], importance, height, width - 1, rest);
      Assoc(chunks[0], Concat(chunks[1..]), rest);
      assert ColumnReads(chunks[0], columns[0], importance, height);
      assert ReadColumn(chunks[0] + mid, importance, height) == Ok(Parsed(columns[0], mid));
      ReadPlaneStep(Concat(chunks) + rest, importance, width, height, columns[0], mid, Flatten(columns[1..]), rest);
    }
  }

  /** `ReadPlane` assembled from one column and the columns after it. */
  lemma ReadPlaneStep(s: Bytes, importance: seq<bool>, width: nat, height: nat, column: seq<Tile>,
                      mid: Bytes, more: seq<Tile>, rest: Bytes)
    requires width > 0
    requires ReadColumn(s, importance, height) == Ok(Parsed(column, mid))
    requires ReadPlane(mid, importance, width - 1, height) == Ok(Parsed(more, rest))
    ensures ReadPlane(s, importance, width, height) == Ok(Parsed(column + more, rest))
  {
  }

  /** The encoder's output from a column start on is those columns' bytes. */
  lemma {:induction false} ColumnsEncode(cells: seq<Tile>, height: nat, record: (Tile, nat) -> Bytes, start: nat)
    requires 0 < height && Edge(|cells|, height)
    requires Edge(start, height) && start <= |cells|
    decreases |cells| - start
    ensures EncodeRuns(cells, height, record, start) == Concat(PlaneColumns(cells, height, record, start))
  {
    if start < |cells| {
      NextColumn(|cells|, height, start);
      var next := start + height;
      var column := Concat(ColumnChunks(cells, height, record, start, next));
      var later := PlaneColumns(cells, height, record, next);
      ColumnsEncode(cells, height, record, next);
      assert PlaneColumns(cells, height, record, start) == [column] + later;
      ChunksEncode(cells, height, record, start, next);
      ConcatHead(column, later);
    } else {
      assert EncodeRuns(cells, height, record, start) == [];
    }
  }

  lemma ConcatHead(chunk: Bytes, chunks: seq<Bytes>)
    ensures Concat([chunk] + chunks) == chunk + Concat(chunks)
  {
    assert ([chunk] + chunks)[1..] == chunks;
  }

  /** Each column the encoder writes decodes to that column's normalized cells. */
  lemma {:induction false} ColumnsDecode(cells: seq<Tile>, height: nat, record: (Tile, nat) -> Bytes,
                                         importance: seq<bool>, start: nat)
    requires 0 < height <= 0x1_0000 && Edge(|cells|, height) && AllCovered(cells, importance)
    requires Inverts(record, importance)
    requires Edge(start, height) && start <= |cells|
    decreases |cells| - start
    ensures DecodesColumns(PlaneColumns(cells, height, record, start),
                           PlaneCells(cells, height, importance, start), importance, height)
  {
    if start < |cells| {
      NextColumn(|cells|, height, start);
      ColumnsDecode(cells, height, record, importance, start + height);
      ColumnsDecodeStep(cells, height, record, importance, start, start + height);
    }
  }

  /** One decoding column in front of the later decoding columns. */
  lemma ColumnsDecodeStep(cells: seq<Tile>, height: nat, record: (Tile, nat) -> Bytes,
                          importance: seq<bool>, start: nat, next: nat)
    requires 0 < height <= 0x1_0000 && Edge(|cells|, height) && AllCovered(cells, importance)
    requires Inverts(record, importance)
    requires Edge(start, height) && start < |cells|
    requires next == start + height && Edge(next, height) && next <= |cells|
    requires DecodesColumns(PlaneColumns(cells, height, record, next),
                            PlaneCells(cells, height, importance, next), importance, height)
    ensures DecodesColumns(PlaneColumns(cells, height, record, start),
                           PlaneCells(cells, height, importance, start), importance, height)
  {
    ColumnRoundTrip(cells, height, record, importance, start, next);
    ColumnsDecodeCons(cells, height, record, importance, start, next);
  }

  /** A column that decodes in front of the later decoding columns. */
  lemma ColumnsDecodeCons(cells: seq<Tile>, height: nat, record: (Tile, nat) -> Bytes,
                          importance: seq<bool>, start: nat, next: nat)
    requires 0 < height && Edge(|cells|, height) && AllCovered(cells, importance)
    requires Edge(start, height) && start < |cells|
    requires next == start + height && Edge(next, height) && next <= |cells|
    requires ColumnReads(Concat(ColumnChunks(cells, height, record, start, next)),
                         NormalizeAll(cells[start..next], importance), importance, height)
    requires DecodesColumns(PlaneColumns(cells, height, record, next),
                            PlaneCells(cells, height, importance, next), importance, height)
    ensures DecodesColumns(PlaneColumns(cells, height, record, start),
                           PlaneCells(cells, height, importance, start), importance, height)
  {
    PlaneColumnsCons(cells, height, record, start);
    PlaneCellsCons(cells, height, importance, start);
    DecodesColumnsCons(Concat(ColumnChunks(cells, height, record, start, next)),
                       NormalizeAll(cells[start..next], importance),
                       PlaneColumns(cells, height, record, next),
                       PlaneCells(cells, height, importance, next), importance, height);
  }

  /** The bytes of the columns from a column start: that column's, then the later ones'. */
  lemma PlaneColumnsCons(cells: seq<Tile>, height: nat, record: (Tile, nat) -> Bytes, start: nat)
    requires 0 < height && Edge(|cells|, height)
    requires Edge(start, height) && start < |cells|
    ensures start + height <= |cells| && Edge(start + height, height)
    ensures PlaneColumns(cells, height, record, start)
         == [Concat(ColumnChunks(cells, height, record, start, start + height))]
            + PlaneColumns(cells, height, record, start + height)
  {
    NextColumn(|cells|, height, start);
  }

  /** The cells of the columns from a column start: that column's, then the later ones'. */
  lemma PlaneCellsCons(cells: seq<Tile>, height: nat, importance: seq<bool>, start: nat)
    requires 0 < height && Edge(|cells|, height) && AllCovered(cells, importance)
    requires Edge(start, height) && start < |cells|
    ensures start + height <= |cells| && Edge(start + height, height)
    ensures PlaneCells(cells, height, importance, start)
         == [NormalizeAll(cells[start..start + height], importance)]
            + PlaneCells(cells, height, importance, start + height)
  {
    NextColumn(|cells|, height, start);
  }

  lemma DecodesColumnsCons(chunk: Bytes, column: seq<Tile>, chunks: seq<Bytes>, columns: seq<seq<Tile>>,
                           importance: seq<bool>, height: nat)
    requires DecodesColumns(chunks, columns, importance, height)
    requires ColumnReads(chunk, column, importance, height)
    ensures DecodesColumns([chunk] + chunks, [column] + columns, importance, height)
  {
    forall j | 0 <= j < |chunks| + 1
      ensures ColumnReads(([chunk] + chunks)[j], ([column] + columns)[j], importance, height)
    {
      if j > 0 {
        assert ([chunk] + chunks)[j] == chunks[j - 1];
      }
    }
  }

  /** The columns' cells, one after the other, are the normalized cells. */
  lemma {:induction false} CellsFlatten(cells: seq<Tile>, height: nat, importance: seq<bool>, start: nat)
    requires 0 < height && Edge(|cells|, height) && AllCovered(cells, importance)
    requires Edge(start, height) && start <= |cells|
    decreases |cells| - start
    ensures Flatten(PlaneCells(cells, height, importance, start)) == NormalizeAll(cells[start..], importance)
  {
    if start < |cells| {
      NextColumn(|cells|, height, start);
      var column := NormalizeAll(cells[start..start + height], importance);
      var later := PlaneCells(cells, height, importance, start + height);
      CellsFlatten(cells, height, importance, start + height);
      assert PlaneCells(cells, height, importance, start) == [column] + later;
      FlattenHead(column, later);
      NormalizeAllSplit(cells, importance, start, start + height);
    } else {
      assert NormalizeAll(cells[start..], importance) == [];
    }
  }

  lemma FlattenHead(column: seq<Tile>, columns: seq<seq<Tile>>)
    ensures Flatten([column] + columns) == column + Flatten(columns)
  {
    assert ([column] + columns)[1..] == columns;
  }

  /** There is one column per `height` cells. */
  lemma {:induction false} ColumnCount(cells: seq<Tile>, height: nat, importance: seq<bool>, start: nat)
    requires 0 < height && Edge(|cells|, height) && AllCovered(cells, importance)
    requires Edge(start, height) && start <= |cells|
    decreases |cells| - start
    ensures |PlaneCells(cells, height, importance, start)| * height == |cells| - start
  {
    if start < |cells| {
      NextColumn(|cells|, height, start);
      ColumnCount(cells, height, importance, start + height);
      var m := |PlaneCells(cells, height, importance, start + height)|;
      assert |PlaneCells(cells, height, importance, start)| == m + 1;
      assert (m + 1) * height == m * height + height;
    }
  }

  /** The encoder writes one byte string per decoded column. */
  lemma {:induction false} ColumnsMatch(cells: seq<Tile>, height: nat, record: (Tile, nat) -> Bytes,
                                        importance: seq<bool>, start: nat)
    requires 0 < height && Edge(|cells|, height) && AllCovered(cells, importance)
    requires Edge(start, height) && start <= |cells|
    decreases |cells| - start
    ensures |PlaneColumns(cells, height, record, start)| == |PlaneCells(cells, height, importance, start)|
  {
    if start < |cells| {
      NextColumn(|cells|, height, start);
      ColumnsMatch(cells, height, record, importance, start + height);
      PlaneColumnsCons(cells, height, record, start);
      PlaneCellsCons(cells, height, importance, start);
    }
  }

  lemma NormalizeAllSplit(cells: seq<Tile>, importance: seq<bool>, start: nat, end: nat)
    requires start <= end <= |cells| && AllCovered(cells, importance)
    ensures NormalizeAll(cells[start..end], importance) + NormalizeAll(cells[end..], importance)
         == NormalizeAll(cells[start..], importance)
  {
  }

  /** The decoder reads back the plane the encoder wrote: every cell of the
      first `width * height`, normalized, provided a column fits the u16
      repeat count. */
  lemma PlaneRoundTrip(cells: seq<Tile>, width: u32, height: u32, importance: seq<bool>, rest: Bytes)
    requires height <= 0x1_0000 && PlaneCovered(cells, width, height, importance)
    ensures ReadPlane(PlaneBytes(cells, width, height, importance) + rest, importance, width, height)
         == Ok(Parsed(NormalizeAll(cells[..width * height], importance), rest))
  {
    if height == 0 {
      EmptyColumns(rest, importance, width);
      assert width * height == 0;
      assert NormalizeAll(cells[..width * height], importance) == [];
      assert PlaneBytes(cells, width, height, importance) + rest == rest;
    } else {
      var plane := cells[..width * height];
      var record := TileRecord(importance);
      EdgeProduct(width, height);
      var chunks := PlaneColumns(plane, height, record, 0);
      var columns := PlaneCells(plane, height, importance, 0);
      ColumnsEncode(plane, height, record, 0);
      RecordsInvert(importance);
      ColumnsDecode(plane, height, record, importance, 0);
      CellsFlatten(plane, height, importance, 0);
      ColumnCount(plane, height, importance, 0);
      ColumnsMatch(plane, height, record, importance, 0);
      Arith.MulCancel(|chunks|, width, height);
      ReadColumns(chunks, columns, importance, height, width, rest);
      assert plane[0..] == plane;
    }
  }

  lemma {:induction false} EmptyColumns(s: Bytes, importance: seq<bool>, width: nat)
    ensures ReadPlane(s, importance, width, 0) == Ok(Parsed([], s))
  {
    if width > 0 {
      EmptyColumns(s, importance, width - 1);
      var none: seq<Tile> := [];
      assert none + none == none;
    }
  }
}
