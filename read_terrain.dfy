/** The first three parts as `read` consumes them (src/read.rs:74-369):
    the importance table, the header and the tile plane.  Each method is
    proved against the decoder function of the format modules. */
module TerrainReading {
  import opened Structs
  import opened Wire
  import opened Importance
  import opened HeaderFormat
  import opened TileFormat
  import opened PlaneFormat
  import opened TilePool
  import opened Reading
  import WorldFormat

  // ---------------------------------------------------------------------
  // The importance table
  // ---------------------------------------------------------------------

  /** Shifting a byte right by `k` and then by one shifts it by `k + 1`. */
  lemma ShiftOnce(b: byte, k: nat)
    requires k < 7
    ensures (b >> (k as bv3)) >> 1 == b >> ((k + 1) as bv3)
  {
    if k == 0 {} else if k == 1 {} else if k == 2 {} else if k == 3 {}
    else if k == 4 {} else if k == 5 {} else {}
  }

  /** The flags read so far are the flags the table unpacks to. */
  lemma Unpacked(flags: seq<bool>, bytes: Bytes, len: nat)
    requires len == |flags| && len <= 8 * |bytes|
    requires forall k :: 0 <= k < |flags| ==> flags[k] == BitAt(bytes[k / 8], k % 8)
    ensures flags == Unpack(bytes, len)
  {
  }

  /** The loop of the table reader after `flags` and before deciding
      whether to fetch: `i` flags of the current byte `n` are left, `n`
      already shifted past the flags used, and every flag so far is its
      bit of the table bytes `t`. */
  ghost predicate Unpacking(t: Bytes, flags: seq<bool>, i: int, n: byte)
  {
    && i == (8 - |flags| % 8) % 8
    && (|flags| + 7) / 8 <= |t|
    && (i > 0 ==> n == t[|flags| / 8] >> ((|flags| % 8) as bv3))
    && forall k :: 0 <= k < |flags| ==> flags[k] == BitAt(t[k / 8], k % 8)
  }

  /** Ready to take the next flag from `n`. */
  ghost predicate Ready(t: Bytes, flags: seq<bool>, i: int, n: byte)
  {
    && 1 <= i <= 8 && i == 8 - |flags| % 8
    && |flags| / 8 < |t|
    && n == t[|flags| / 8] >> ((|flags| % 8) as bv3)
    && forall k :: 0 <= k < |flags| ==> flags[k] == BitAt(t[k / 8], k % 8)
  }

  /** Flags left in the current byte: no fetch. */
  lemma Pending(t: Bytes, flags: seq<bool>, i: int, n: byte)
    requires Unpacking(t, flags, i, n) && i > 0
    ensures Ready(t, flags, i, n) && (|flags| + 7) / 8 == |flags| / 8 + 1
  {
  }

  /** The current byte used up: the next one is fetched, unless the
      table is cut short. */
  lemma Drained(t: Bytes, flags: seq<bool>, len: nat, n: byte)
    requires Unpacking(t, flags, 0, n) && |flags| < len
    ensures (|flags| + 7) / 8 == |flags| / 8
    ensures |flags| / 8 >= |t| ==> |t| < (len + 7) / 8
  {
  }

  /** A fetched byte holds the next eight flags. */
  lemma Fetched(t: Bytes, flags: seq<bool>, n: byte, b: byte)
    requires Unpacking(t, flags, 0, n) && |flags| / 8 < |t| && b == t[|flags| / 8]
    ensures Ready(t, flags, 8, b)
  {
    assert b >> (0 as bv3) == b;
  }

  /** Taking the lowest bit of `n` and shifting it away. */
  lemma Unpack1(t: Bytes, flags: seq<bool>, i: int, n: byte)
    requires Ready(t, flags, i, n)
    ensures Unpacking(t, flags + [n & 1 == 1], i - 1, n >> 1)
    ensures (|flags| + 8) / 8 == |flags| / 8 + 1
  {
    var j := |flags|;
    assert (n & 1 == 1) == BitAt(t[j / 8], j % 8);
    if j % 8 < 7 {
      ShiftOnce(t[j / 8], j % 8);
    }
  }

  /** The table's flags once its length is known. */
  lemma FlagsRead(t: Bytes, len: nat)
    ensures (len + 7) / 8 <= |t| ==> ReadFlags(t, len) == Ok(Parsed(Unpack(t[..(len + 7) / 8], len), t[(len + 7) / 8..]))
    ensures |t| < (len + 7) / 8 ==> ReadFlags(t, len) == Err(Truncated)
  {
  }

  /** The importance table (src/read.rs:75-87): the u16 length, then a
      byte is fetched whenever the eight flags of the previous one are
      used up, and each flag is its lowest bit before shifting right by
      one. */
  method Table(r: Reader) returns (res: Result<seq<bool>>)
    modifies r`rest
    ensures Took(ReadTable(old(r.rest)), res, r.rest)
  {
    var count :- r.U16();
    var len: nat := count;
    ghost var t := r.rest;
    var importance: seq<bool> := [];
    var i := 0;
    var n: byte := 0;
    assert (|importance| + 7) / 8 == 0 && t[0..] == t;
    while |importance| < len
      invariant |importance| <= len && Unpacking(t, importance, i, n)
      invariant r.rest == t[(|importance| + 7) / 8..]
    {
      if i == 0 {
        Drained(t, importance, len, n);
        FlagsRead(t, len);
        var b :- r.U8();
        Fetched(t, importance, n, b);
        n := b;
        i := 8;
      } else {
        Pending(t, importance, i, n);
      }
      Unpack1(t, importance, i, n);
      importance := importance + [n & 1 == 1];
      n := n >> 1;
      i := i - 1;
    }
    Unpacked(importance, t[..(len + 7) / 8], len);
    FlagsRead(t, len);
    return Ok(importance);
  }

  // ---------------------------------------------------------------------
  // The header
  // ---------------------------------------------------------------------

  /** One field, as its kind reads it (src/read.rs:91-269). */
  method Value(r: Reader, k: Kind) returns (res: Result<Value>)
    modifies r`rest
    ensures Took(ReadValue(old(r.rest), k), res, r.rest)
  {
    match k
    case KU8 => var x :- r.U8(); return Ok(VU8(x));
    case KBool => var x :- r.Bool(); return Ok(VBool(x));
    case KU16 => var x :- r.U16(); return Ok(VU16(x));
    case KU32 => var x :- r.U32(); return Ok(VU32(x));
    case KU64 => var x :- r.U64(); return Ok(VU64(x));
    case KU128 => var x :- r.U128(); return Ok(VU128(x));
    case KF32 => var x :- r.U32(); return Ok(VF32(x));
    case KF64 => var x :- r.U64(); return Ok(VF64(x));
    case KString => var x :- r.String(); return Ok(VString(x));
    case KStrings => var n :- r.U32(); var x :- r.Strings(n); return Ok(VStrings(x));
    case KU32sByU16 => var n :- r.U16(); var x :- r.U32s(n); return Ok(VU32s(x));
    case KU32s => var n :- r.U32(); var x :- r.U32s(n); return Ok(VU32s(x));
    case KTreeTop => var n :- r.U32(); var x :- r.U32s(Min(n, 13)); return Ok(VU32s(x));
  }

  /** One more field of a schema. */
  lemma ValuesStep(vals: seq<Value>, s: Bytes, schema: seq<Kind>)
    requires schema != []
    ensures ReadValue(s, schema[0]).Err?
            ==> Then(vals, ReadValues(s, schema)) == Err(ReadValue(s, schema[0]).error)
    ensures ReadValue(s, schema[0]).Ok?
            ==> Then(vals, ReadValues(s, schema))
                == Then(vals + [ReadValue(s, schema[0]).value.value],
                        ReadValues(ReadValue(s, schema[0]).value.rest, schema[1..]))
  {
    var v := ReadValue(s, schema[0]);
    if v.Ok? {
      var more := ReadValues(v.value.rest, schema[1..]);
      if more.Ok? {
        assert vals + ([v.value.value] + more.value.value) == (vals + [v.value.value]) + more.value.value;
      }
    }
  }

  /** The fields of `schema`, in order. */
  method Values(r: Reader, schema: seq<Kind>) returns (res: Result<seq<Value>>)
    modifies r`rest
    ensures Took(ReadValues(old(r.rest), schema), res, r.rest)
  {
    ghost var s := r.rest;
    var vals := [];
    var i := 0;
    ThenEmpty(ReadValues(s, schema));
    while i < |schema|
      invariant i <= |schema|
      invariant ReadValues(s, schema) == Then(vals, ReadValues(r.rest, schema[i..]))
    {
      ValuesStep(vals, r.rest, schema[i..]);
      assert schema[i..][1..] == schema[i + 1..];
      var v :- Value(r, schema[i]);
      vals := vals + [v];
      i := i + 1;
    }
    ThenNone(vals, r.rest);
    return Ok(vals);
  }

  /** The header: the 181 fields of the schema (src/read.rs:91-269). */
  method Header(r: Reader) returns (res: Result<seq<Value>>)
    modifies r`rest
    ensures Took(WorldFormat.ReadHeader(old(r.rest)), res, r.rest)
  {
    res := Values(r, HeaderSchema);
  }

  // ---------------------------------------------------------------------
  // One record of the tile plane (src/read.rs:283-354)
  // ---------------------------------------------------------------------

  /** `present.then(|| r.u8())` */
  method OptByte(r: Reader, present: bool) returns (res: Result<Option<byte>>)
    modifies r`rest
    ensures Took(ReadOptByte(old(r.rest), present), res, r.rest)
  {
    if !present {
      return Ok(None);
    }
    var n :- r.U8();
    return Ok(Some(n));
  }

  /** `present.then(|| (r.u16(), r.u16()))` */
  method OptUV(r: Reader, present: bool) returns (res: Result<Option<(u16, u16)>>)
    modifies r`rest
    ensures Took(ReadOptUV(old(r.rest), present), res, r.rest)
  {
    if !present {
      return Ok(None);
    }
    var u :- r.U16();
    var v :- r.U16();
    return Ok(Some((u, v)));
  }

  /** `r.u16()` when `wide`, else `r.u8() as u16`. */
  method Id(r: Reader, wide: bool) returns (res: Result<u16>)
    modifies r`rest
    ensures Took(ReadId(old(r.rest), wide), res, r.rest)
  {
    if wide {
      res := r.U16();
    } else {
      var b :- r.U8();
      return Ok(b as int);
    }
  }

  method Block(r: Reader, a: byte, b: byte, c: byte, importance: seq<bool>) returns (res: Result<Option<Block>>)
    modifies r`rest
    ensures Took(ReadBlock(old(r.rest), a, b, c, importance), res, r.rest)
  {
    if !Has(a, 2) {
      return Ok(None);
    }
    var id :- Id(r, Has(a, 32));
    if id >= |importance| {
      return Err(ImportanceIndex(id));
    }
    var uv :- OptUV(r, importance[id]);
    var color :- OptByte(r, Has(c, 8));
    return Ok(Some(Structs.Block(id, color, uv, Has(c, 4), SlopeOf(b))));
  }

  method Wall(r: Reader, a: byte, c: byte) returns (res: Result<Option<Wall>>)
    modifies r`rest
    ensures Took(ReadWall(old(r.rest), a, c), res, r.rest)
  {
    if !Has(a, 4) {
      return Ok(None);
    }
    var id :- Id(r, Has(c, 64));
    var color :- OptByte(r, Has(c, 16));
    return Ok(Some(Structs.Wall(id, color)));
  }

  method Liquid(r: Reader, a: byte, c: byte) returns (res: Result<Option<Liquid>>)
    modifies r`rest
    ensures Took(ReadLiquid(old(r.rest), a, c), res, r.rest)
  {
    if (a >> 3) & 3 == 0 {
      return Ok(None);
    }
    var amount :- r.U8();
    return Ok(Some(Structs.Liquid(LiquidOf(a, c), amount)));
  }

  method RunCount(r: Reader, a: byte) returns (res: Result<u16>)
    modifies r`rest
    ensures Took(ReadRunCount(old(r.rest), a), res, r.rest)
  {
    if Has(a, 128) {
      res := r.U16();
    } else if Has(a, 64) {
      var k :- r.U8();
      return Ok(k as int);
    } else {
      return Ok(0);
    }
  }

  /** `a`, then `b` when `a & 1`, then `c` when `b & 1`; 0 for a byte not
      read. */
  method FlagChain(r: Reader) returns (res: Result<(byte, byte, byte)>)
    modifies r`rest
    ensures Took(ReadFlagChain(old(r.rest)), res, r.rest)
  {
    var a :- r.U8();
    var b: byte := 0;
    if Has(a, 1) {
      b :- r.U8();
    }
    var c: byte := 0;
    if Has(b, 1) {
      c :- r.U8();
    }
    return Ok((a, b, c));
  }

  /** The flags, the reserved-bit check, the block, wall and liquid, and
      the repeat count. */
  method Record(r: Reader, importance: seq<bool>) returns (res: Result<Run>)
    modifies r`rest
    ensures Took(ReadRecord(old(r.rest), importance), res, r.rest)
  {
    var flags :- FlagChain(r);
    var (a, b, c) := flags;
    if Has(c, 1) || Has(b, 128) {
      return Err(ReservedBit);
    }
    var block :- Block(r, a, b, c, importance);
    var wall :- Wall(r, a, c);
    var liquid :- Liquid(r, a, c);
    var k :- RunCount(r, a);
    var tile := Tile(block, wall, liquid, Has(b, 2), Has(b, 4), Has(b, 8), Has(c, 32), Has(c, 2));
    return Ok(Run(tile, k));
  }

  // ---------------------------------------------------------------------
  // The plane (src/read.rs:275-369): handles into the interning pool
  // ---------------------------------------------------------------------

  /** Every handle names a pooled tile. */
  predicate Handles(hs: seq<nat>, size: nat)
  {
    forall i :: 0 <= i < |hs| ==> hs[i] < size
  }

  /** The tiles the handles name. */
  function CellsOf(hs: seq<nat>, entries: seq<Tile>): (cells: seq<Tile>)
    requires Handles(hs, |entries|)
    ensures |cells| == |hs| && forall i :: 0 <= i < |hs| ==> cells[i] == entries[hs[i]]
  {
    seq(|hs|, i requires 0 <= i < |hs| => entries[hs[i]])
  }

  /** The handles read and the bytes left agree with the decoder function's
      cells and rest, or both failed with the same error. */
  predicate TookCells(p: Result<Parsed<seq<Tile>>>, res: Result<seq<nat>>, rest: Bytes, entries: seq<Tile>)
  {
    match p
    case Ok(x) => res.Ok? && Handles(res.value, |entries|) && CellsOf(res.value, entries) == x.value && rest == x.rest
    case Err(e) => res == Err(e)
  }

  /** A pool that only grew names the same tiles by the old handles. */
  lemma CellsGrow(hs: seq<nat>, entries: seq<Tile>, more: seq<Tile>)
    requires Handles(hs, |entries|) && entries <= more
    ensures Handles(hs, |more|) && CellsOf(hs, more) == CellsOf(hs, entries)
  {
  }

  /** Appending handles appends the tiles they name. */
  lemma CellsAppend(hs: seq<nat>, more: seq<nat>, entries: seq<Tile>)
    requires Handles(hs, |entries|) && Handles(more, |entries|)
    ensures Handles(hs + more, |entries|)
    ensures CellsOf(hs + more, entries) == CellsOf(hs, entries) + CellsOf(more, entries)
  {
  }

  /** `decode` is the record decoder for `importance`.  The link fires
      only where `ReadRecord` itself is mentioned, so that the column and
      plane loops reason about `decode` without unfolding the record
      format's cases. */
  ghost predicate IsRecordDecoder(decode: Bytes -> Result<Parsed<Run>>, importance: seq<bool>)
  {
    forall s {:trigger ReadRecord(s, importance)} :: decode(s) == ReadRecord(s, importance)
  }

  /** The record decoder for `importance`, as a value. */
  ghost function RecordDecoder(importance: seq<bool>): (decode: Bytes -> Result<Parsed<Run>>)
    ensures IsRecordDecoder(decode, importance)
  {
    s => ReadRecord(s, importance)
  }

  /** `ReadColumn` over the record decoder `decode`. */
  ghost function Runs(s: Bytes, decode: Bytes -> Result<Parsed<Run>>, left: nat): Result<Parsed<seq<Tile>>>
    decreases left
  {
    if left == 0 then Ok(Parsed([], s))
    else
      var r :- decode(s);
      var n := r.value.count + 1;
      if n > left then Err(ColumnOverrun)
      else
        var more :- Runs(r.rest, decode, left - n);
        Ok(Parsed(Repeat(r.value.tile, n) + more.value, more.rest))
  }

  /** `ReadPlane` over the record decoder `decode`. */
  ghost function Columns(s: Bytes, decode: Bytes -> Result<Parsed<Run>>, width: nat, height: nat)
    : Result<Parsed<seq<Tile>>>
    decreases width
  {
    if width == 0 then Ok(Parsed([], s))
    else
      var column :- Runs(s, decode, height);
      var more :- Columns(column.rest, decode, width - 1, height);
      Ok(Parsed(column.value + more.value, more.rest))
  }

  /** Over the record decoder, `Runs` is `ReadColumn`. */
  lemma {:induction false} RunsAre(s: Bytes, importance: seq<bool>, decode: Bytes -> Result<Parsed<Run>>, left: nat)
    requires IsRecordDecoder(decode, importance)
    ensures Runs(s, decode, left) == ReadColumn(s, importance, left)
    decreases left
  {
    if left > 0 {
      var r := ReadRecord(s, importance);
      assert decode(s) == r;
      if r.Ok? && r.value.value.count + 1 <= left {
        var run := r.value;
        RunsAre(run.rest, importance, decode, left - (run.value.count + 1));
        ColumnCons(s, importance, left, run);
        RunsCons(s, decode, left, run);
      }
    }
  }

  /** A column whose first record fits: the record's cells, then the rest
      of the column. */
  lemma ColumnCons(s: Bytes, importance: seq<bool>, left: nat, run: Parsed<Run>)
    requires ReadRecord(s, importance) == Ok(run) && 0 < run.value.count + 1 <= left
    ensures ReadColumn(s, importance, left)
            == Then(Repeat(run.value.tile, run.value.count + 1),
                    ReadColumn(run.rest, importance, left - (run.value.count + 1)))
  {
  }

  /** `ColumnCons` over the record decoder `decode`. */
  lemma RunsCons(s: Bytes, decode: Bytes -> Result<Parsed<Run>>, left: nat, run: Parsed<Run>)
    requires decode(s) == Ok(run) && 0 < run.value.count + 1 <= left
    ensures Runs(s, decode, left)
            == Then(Repeat(run.value.tile, run.value.count + 1), Runs(run.rest, decode, left - (run.value.count + 1)))
  {
  }

  /** Over the record decoder, `Columns` is `ReadPlane`. */
  lemma {:induction false} ColumnsAre(s: Bytes, importance: seq<bool>, decode: Bytes -> Result<Parsed<Run>>,
                                      width: nat, height: nat)
    requires IsRecordDecoder(decode, importance)
    ensures Columns(s, decode, width, height) == ReadPlane(s, importance, width, height)
    decreases width
  {
    if width > 0 {
      RunsAre(s, importance, decode, height);
      var column := ReadColumn(s, importance, height);
      if column.Ok? {
        ColumnsAre(column.value.rest, importance, decode, width - 1, height);
      }
    }
  }

  /** One more record of a column, once the record reader has run (`res`
      and `rest` are what it produced and left): a failing record fails
      the column, a record repeated past the column's end overruns it, and
      any other record adds its cells. */
  lemma RunTook(cells: seq<Tile>, s: Bytes, decode: Bytes -> Result<Parsed<Run>>, height: nat, y: nat,
                res: Result<Run>, rest: Bytes)
    requires y < height && Took(decode(s), res, rest)
    ensures res.Err? ==> Then(cells, Runs(s, decode, height - y)) == Err(res.error)
    ensures res.Ok? && y + res.value.count + 1 > height
            ==> Then(cells, Runs(s, decode, height - y)) == Err(ColumnOverrun)
    ensures res.Ok? && y + res.value.count + 1 <= height
            ==> Then(cells, Runs(s, decode, height - y))
                == Then(cells + Repeat(res.value.tile, res.value.count + 1),
                        Runs(rest, decode, height - (y + res.value.count + 1)))
  {
    if res.Ok? && y + res.value.count + 1 <= height {
      var t := Repeat(res.value.tile, res.value.count + 1);
      var more := Runs(rest, decode, height - (y + res.value.count + 1));
      if more.Ok? {
        assert cells + (t + more.value.value) == (cells + t) + more.value.value;
      }
    }
  }

  /** `for _ in 0..n { tiles.push(Rc::clone(p)) }` */
  method PushRepeated(hs: seq<nat>, p: nat, n: nat, ghost entries: seq<Tile>) returns (out: seq<nat>)
    requires Handles(hs, |entries|) && p < |entries|
    ensures Handles(out, |entries|)
    ensures CellsOf(out, entries) == CellsOf(hs, entries) + Repeat(entries[p], n)
  {
    out := hs;
    var m := 0;
    while m < n
      invariant m <= n && Handles(out, |entries|)
      invariant CellsOf(out, entries) == CellsOf(hs, entries) + Repeat(entries[p], m)
    {
      CellsAppend(out, [p], entries);
      assert Repeat(entries[p], m) + [entries[p]] == Repeat(entries[p], m + 1);
      out := out + [p];
      m := m + 1;
    }
  }

  /** One column (src/read.rs:281-363): records until `height` cells are
      covered.  Each record's tile is interned with `get_or_insert` and
      its handle pushed `k + 1` times; cells past the column's end are
      fatal once the loop stops (`y != height`). */
  method Column(r: Reader, pool: Pool, importance: seq<bool>, height: u32,
                ghost decode: Bytes -> Result<Parsed<Run>>)
    returns (res: Result<seq<nat>>)
    requires pool.Valid() && IsRecordDecoder(decode, importance)
    modifies r`rest, pool
    ensures pool.Valid() && old(pool.entries) <= pool.entries
    ensures TookCells(Runs(old(r.rest), decode, height), res, r.rest, pool.entries)
  {
    ghost var goal := Runs(r.rest, decode, height);
    var hs: seq<nat> := [];
    var y := 0;
    ThenEmpty(goal);
    while y < height
      invariant pool.Valid() && old(pool.entries) <= pool.entries && Handles(hs, |pool.entries|)
      invariant y <= height ==> goal == Then(CellsOf(hs, pool.entries), Runs(r.rest, decode, height - y))
      invariant y > height ==> goal == Err(ColumnOverrun)
      decreases height - y
    {
      var step :- NextRun(r, pool, importance, height, y, hs, goal, decode);
      var k: nat;
      hs, k := step.0, step.1;
      y := y + k + 1;
    }
    if y != height {
      return Err(ColumnOverrun);
    }
    ThenNone(CellsOf(hs, pool.entries), r.rest);
    return Ok(hs);
  }

  /** One record of a column whose first `y` cells are the tiles `hs`
      names: the handles with the record's tile pushed `k + 1` times, and
      `k`. */
  method NextRun(r: Reader, pool: Pool, importance: seq<bool>, height: nat, y: nat, hs: seq<nat>,
                 ghost goal: Result<Parsed<seq<Tile>>>, ghost decode: Bytes -> Result<Parsed<Run>>)
    returns (res: Result<(seq<nat>, nat)>)
    requires pool.Valid() && Handles(hs, |pool.entries|) && y < height && IsRecordDecoder(decode, importance)
    requires goal == Then(CellsOf(hs, pool.entries), Runs(r.rest, decode, height - y))
    modifies r`rest, pool
    ensures pool.Valid() && old(pool.entries) <= pool.entries
    ensures res.Err? ==> goal == Err(res.error)
    ensures res.Ok? ==> var (more, k) := res.value;
              && Handles(more, |pool.entries|)
              && (y + k + 1 <= height
                  ==> goal == Then(CellsOf(more, pool.entries), Runs(r.rest, decode, height - (y + k + 1))))
              && (y + k + 1 > height ==> goal == Err(ColumnOverrun))
  {
    ghost var s := r.rest;
    var run := Record(r, importance);
    RunTook(CellsOf(hs, pool.entries), s, decode, height, y, run, r.rest);
    if run.Err? {
      return Err(run.error);
    }
    ghost var before := pool.entries;
    var p := pool.GetOrInsert(run.value.tile);
    CellsGrow(hs, before, pool.entries);
    var more := PushRepeated(hs, p, run.value.count + 1, pool.entries);
    return Ok((more, run.value.count));
  }

  /** One more column of the plane. */
  lemma PlaneStep(cells: seq<Tile>, s: Bytes, decode: Bytes -> Result<Parsed<Run>>, width: nat, height: nat)
    requires width > 0
    ensures Runs(s, decode, height).Err?
            ==> Then(cells, Columns(s, decode, width, height)) == Err(Runs(s, decode, height).error)
    ensures Runs(s, decode, height).Ok?
            ==> var column := Runs(s, decode, height).value;
                Then(cells, Columns(s, decode, width, height))
                == Then(cells + column.value, Columns(column.rest, decode, width - 1, height))
  {
    var column := Runs(s, decode, height);
    if column.Ok? {
      var more := Columns(column.value.rest, decode, width - 1, height);
      if more.Ok? {
        assert cells + (column.value.value + more.value.value) == (cells + column.value.value) + more.value.value;
      }
    }
  }

  /** `for x in 0..width { .. }`: the columns, left to right, every cell a
      handle into the pool (the progress messages are not modelled). */
  method Plane(r: Reader, pool: Pool, importance: seq<bool>, width: u32, height: u32) returns (res: Result<seq<nat>>)
    requires pool.Valid()
    modifies r`rest, pool
    ensures pool.Valid() && old(pool.entries) <= pool.entries
    ensures TookCells(ReadPlane(old(r.rest), importance, width, height), res, r.rest, pool.entries)
  {
    ghost var decode := RecordDecoder(importance);
    ColumnsAre(r.rest, importance, decode, width, height);
    res := AllColumns(r, pool, importance, width, height, decode);
  }

  /** The plane's columns, over the record decoder `decode`. */
  method AllColumns(r: Reader, pool: Pool, importance: seq<bool>, width: u32, height: u32,
                  ghost decode: Bytes -> Result<Parsed<Run>>)
    returns (res: Result<seq<nat>>)
    requires pool.Valid() && IsRecordDecoder(decode, importance)
    modifies r`rest, pool
    ensures pool.Valid() && old(pool.entries) <= pool.entries
    ensures TookCells(Columns(old(r.rest), decode, width, height), res, r.rest, pool.entries)
  {
    ghost var goal := Columns(r.rest, decode, width, height);
    var hs: seq<nat> := [];
    var x := 0;
    ThenEmpty(goal);
    while x < width
      invariant x <= width
      invariant pool.Valid() && old(pool.entries) <= pool.entries && Handles(hs, |pool.entries|)
      invariant goal == Then(CellsOf(hs, pool.entries), Columns(r.rest, decode, width - x, height))
    {
      PlaneStep(CellsOf(hs, pool.entries), r.rest, decode, width - x, height);
      ghost var before := pool.entries;
      var column :- Column(r, pool, importance, height, decode);
      CellsGrow(hs, before, pool.entries);
      CellsAppend(hs, column, pool.entries);
      hs := hs + column;
      x := x + 1;
    }
    ThenNone(CellsOf(hs, pool.entries), r.rest);
    return Ok(hs);
  }
}
