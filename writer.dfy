/** The encoder's `Writer` (src/write.rs:5-30) and `write`
    (src/write.rs:32-539): a byte vector that only grows, except that `mark`
    overwrites one slot of the offsets table reserved near its start.  Every
    method is proved against the encoder functions of the format modules:
    it appends exactly their bytes. */
module Writing {
  import opened Structs
  import opened Wire
  import opened Importance
  import opened TileFormat
  import opened PlaneFormat
  import opened HeaderFormat
  import opened ChestFormat
  import opened NpcFormat
  import opened EntityFormat
  import opened MiscFormat
  import opened WorldFormat
  import opened WorldState
  import Arith

  /** The four bytes of a u32 as `mark` writes them: `n as u8`,
      `(n >> 8) as u8`, `(n >> 16) as u8`, `(n >> 24) as u8`. */
  lemma U32Digits(n: u32)
    ensures U32Bytes(n) == [(n % 0x100) as byte, ((n / 0x100) % 0x100) as byte,
                            ((n / 0x1_0000) % 0x100) as byte, ((n / 0x100_0000) % 0x100) as byte]
  {
    Arith.DivDiv(n, 0x100, 0x100);
    Arith.DivDiv(n, 0x1_0000, 0x100);
    assert LeBytes(n, 4) == [(n % 0x100) as byte] + LeBytes(n / 0x100, 3);
    assert LeBytes(n / 0x100, 3) == [((n / 0x100) % 0x100) as byte] + LeBytes(n / 0x100 / 0x100, 2);
    assert LeBytes(n / 0x1_0000, 2) == [((n / 0x1_0000) % 0x100) as byte] + LeBytes(n / 0x1_0000 / 0x100, 1);
  }

  /** Writing the four bytes `b` one by one over bytes `at` to `at + 3`
      of `d` splices `b` into `d` at `at`. */
  lemma Overwrite4(d: Bytes, at: nat, b: Bytes, e: Bytes)
    requires |b| == 4 && at + 4 <= |d|
    requires e == d[at := b[0]][at + 1 := b[1]][at + 2 := b[2]][at + 3 := b[3]]
    ensures e == d[..at] + b + d[at + 4..]
  {
    assert forall j :: 0 <= j < |e| ==> e[j] == (d[..at] + b + d[at + 4..])[j];
  }

  /** One more flag, flag `j = s + i`, adds its bit to the byte being
      filled from flag `s` on. */
  lemma PackStep(flags: seq<bool>, s: nat, i: nat, j: nat)
    requires j == s + i && j < |flags| && i < 8
    ensures flags[j] ==> PackByte(flags[s..j + 1]) == PackByte(flags[s..j]) + ((1 as byte) << (i as bv3))
    ensures !flags[j] ==> PackByte(flags[s..j + 1]) == PackByte(flags[s..j])
  {
    var x := flags[s..j + 1];
    assert |x| - 1 == i && x[i] == flags[j];
    assert x[..i] == flags[s..j];
  }

  /** One turn of the importance loop: flag `j` adds bit `i` to the byte
      being packed, and once that byte holds eight flags, writing it
      leaves the flags after them to write. */
  lemma PackAdvance(start: Bytes, data: Bytes, flags: seq<bool>, s: nat, i: nat, j: nat, n: byte)
    requires i < 8 && s + i == j < |flags|
    requires start + Pack(flags) == data + Pack(flags[s..])
    requires n == PackByte(flags[s..j])
    ensures var next := if flags[j] then n + ((1 as byte) << (i as bv3)) else n;
      && next == PackByte(flags[s..j + 1])
      && (i == 7 ==> start + Pack(flags) == (data + [next]) + Pack(flags[s + 8..]))
  {
    PackStep(flags, s, i, j);
    var next := if flags[j] then n + ((1 as byte) << (i as bv3)) else n;
    if i == 7 {
      Flush(start, data, flags, s, next);
    }
  }

  /** Eight flags from `s` on make one byte, and the rest follow. */
  lemma PackHead(flags: seq<bool>, s: nat)
    requires s + 8 <= |flags|
    ensures Pack(flags[s..]) == [PackByte(flags[s..s + 8])] + Pack(flags[s + 8..])
  {
    var g := flags[s..];
    assert g[..8] == flags[s..s + 8];
    if |g| == 8 {
      assert g == g[..8] && flags[s + 8..] == [];
    } else {
      assert g[8..] == flags[s + 8..];
    }
  }

  /** Writing the byte of eight flags from `s` leaves the flags after them
      to write. */
  lemma Flush(start: Bytes, data: Bytes, flags: seq<bool>, s: nat, n: byte)
    requires s + 8 <= |flags| && n == PackByte(flags[s..s + 8])
    requires start + Pack(flags) == data + Pack(flags[s..])
    ensures start + Pack(flags) == (data + [n]) + Pack(flags[s + 8..])
  {
    PackHead(flags, s);
  }

  /** A last run of one to eight flags makes one byte. */
  lemma PackLast(flags: seq<bool>, s: nat)
    requires s < |flags| <= s + 8
    ensures Pack(flags[s..]) == [PackByte(flags[s..|flags|])]
  {
    assert flags[s..] == flags[s..|flags|];
  }

  /** The inner `loop` of src/write.rs:256-262: from the cell after
      `start`, step on until a column edge or a tile different from the
      one at `start`; that is where the run ends. */
  method RunScan(cells: seq<Tile>, height: u32, start: nat) returns (i: nat)
    requires height > 0 && Edge(|cells|, height) && start < |cells|
    ensures i == RunEnd(cells, height, start, start + 1)
  {
    var tile := cells[start];
    i := start;
    while true
      invariant start <= i < |cells|
      invariant RunEnd(cells, height, start, start + 1) == RunEnd(cells, height, start, i + 1)
      decreases |cells| - i
    {
      i := i + 1;
      EdgeMod(i, height);
      if i % height == 0 {
        break;
      }
      if cells[i] != tile {
        break;
      }
    }
  }

  /** Writing the record `rec` of the run that starts at `i` and ends at
      `e` moves the plane loop on to cell `e`. */
  lemma RunRecord(goal: Bytes, data: Bytes, cells: seq<Tile>, height: nat, record: (Tile, nat) -> Bytes,
                  i: nat, e: nat, rec: Bytes)
    requires height > 0 && Edge(|cells|, height) && i < |cells|
    requires e == RunEnd(cells, height, i, i + 1) && rec == record(cells[i], e - i - 1)
    requires goal == data + EncodeRuns(cells, height, record, i)
    ensures goal == (data + rec) + EncodeRuns(cells, height, record, e)
  {
    EncodeRunsHead(cells, height, record, i);
    Assoc(data, rec, EncodeRuns(cells, height, record, e));
  }

  /** The record of the run from `start` up to `end`: the tile at `start`
      repeated `end - start - 1` more times, built by `TileBytes`. */
  method RunBytes(cells: seq<Tile>, start: nat, end: nat, importance: seq<bool>) returns (rec: Bytes)
    requires AllCovered(cells, importance) && start < end <= |cells|
    ensures rec == TileRecord(importance)(cells[start], end - start - 1)
  {
    rec := TileBytes(cells[start], end - start - 1, importance);
  }

  /** The two bytes of a u16 as the anchor is written: `u as u8`, then
      `(u >> 8) as u8`. */
  lemma U16Digits(n: u16)
    ensures U16Bytes(n) == [(n % 256) as byte, (n / 256) as byte]
  {
    assert LeBytes(n, 2) == [(n % 256) as byte] + LeBytes(n / 256, 1);
  }

  /** One tile record (src/write.rs:263-347).  The record writer walks
      the block, wall and liquid arms, the wires and the repeat count,
      adding bits to the flag bytes `a`, `b`, `c` and pushing field bytes
      as it goes.  No bit depends on a byte pushed or on another flag
      byte, so the model takes the arms once for each flag byte
      (`TileFlags`) and once more for the field bytes (`FieldPushes`).
      `c` and then `b` are put in front only when non-zero, and `a` is
      written first (`Prefixed`).  The result is the layout `RecordBytes`
      describes, which `TileFormat.RecordRoundTrip` reads back. */
  method TileBytes(tile: Tile, k: nat, importance: seq<bool>) returns (rec: Bytes)
    requires Covered(tile, importance)
    ensures rec == RecordBytes(tile, k, importance)
  {
    var a, b, c := TileFlags(tile, k);
    var temp := FieldPushes(tile, k, importance);
    rec := Prefixed(a, b, c, temp);
    Assembled(tile, k, importance, a, b, c, temp);
  }

  /** The flag bits and field bytes, put together as `Prefixed` does, make
      the record `RecordBytes` describes. */
  lemma Assembled(tile: Tile, k: nat, importance: seq<bool>, a: byte, b: byte, c: byte, temp: Bytes)
    requires Covered(tile, importance)
    requires c == FlagC(tile)
    requires b + (if NeedsC(tile) then 1 else 0) == FlagB(tile)
    requires a + (if NeedsB(tile) then 1 else 0) == FlagA(tile, k)
    requires temp == FieldBytes(tile, k, importance)
    ensures var b1 := if c > 0 then b + 1 else b;
            var a1 := if b1 > 0 then a + 1 else a;
            [a1] + (if b1 > 0 then [b1] else []) + (if c > 0 then [c] else []) + temp
            == RecordBytes(tile, k, importance)
  {
    FlagCNonZero(tile);
    FlagBNonZero(tile);
    Continued(a, b, c, FlagA(tile, k), FlagB(tile), NeedsB(tile), NeedsC(tile));
  }

  /** Bit 0 of `b` and of `a`, set by the source when the next byte is
      non-zero, is the bit the layout sets when that byte is needed, so
      the bytes `Prefixed` puts in front are the layout's flag bytes. */
  lemma Continued(a: byte, b: byte, c: byte, fa: byte, fb: byte, needsB: bool, needsC: bool)
    requires c > 0 <==> needsC
    requires b + (if needsC then 1 else 0) == fb && (fb > 0 <==> needsB)
    requires a + (if needsB then 1 else 0) == fa
    ensures var b1 := if c > 0 then b + 1 else b;
            var a1 := if b1 > 0 then a + 1 else a;
            [a1] + (if b1 > 0 then [b1] else []) + (if c > 0 then [c] else [])
            == [fa] + (if needsB then [fb] else []) + (if needsC then [c] else [])
  {
    var b1 := if c > 0 then b + 1 else b;
    assert b1 == fb;
    var a1 := if b1 > 0 then a + 1 else a;
    assert a1 == fa;
  }

  /** The flag bits of src/write.rs:263-334: `c` is the third flag byte,
      and `b` and `a` are the second and first but for bit 0, which the
      source adds when the next byte is non-zero (`Prefixed`). */
  method TileFlags(tile: Tile, k: nat) returns (a: byte, b: byte, c: byte)
    ensures c == FlagC(tile)
    ensures b + (if NeedsC(tile) then 1 else 0) == FlagB(tile)
    ensures a + (if NeedsB(tile) then 1 else 0) == FlagA(tile, k)
  {
    c := ThirdFlag(tile);
    b := SecondFlag(tile);
    a := FirstFlag(tile, k);
  }

  /** The bits of `c`, in the order the source adds them. */
  method ThirdFlag(tile: Tile) returns (c: byte)
    ensures c == FlagC(tile)
  {
    c := 0;
    if tile.block.Some? {
      if tile.block.value.color.Some? {
        c := c + 8;
      }
      if tile.block.value.inactive {
        c := c + 4;
      }
    }
    if tile.wall.Some? {
      if tile.wall.value.id >= 256 {
        c := c + 64;
      }
      if tile.wall.value.color.Some? {
        c := c + 16;
      }
    }
    if tile.liquid.Some? && tile.liquid.value.kind == Shimmer {
      c := c + 128;
    }
    if tile.yellowWire { c := c + 32; }
    if tile.actuator { c := c + 2; }
  }

  /** The bits of `b` but bit 0, in the order the source adds them. */
  method SecondFlag(tile: Tile) returns (b: byte)
    ensures b + (if NeedsC(tile) then 1 else 0) == FlagB(tile)
  {
    b := 0;
    if tile.block.Some? {
      b := b + (SlopeCode(tile.block.value.slope) << 4);
    }
    if tile.redWire { b := b + 2; }
    if tile.greenWire { b := b + 4; }
    if tile.blueWire { b := b + 8; }
  }

  /** The bits of `a` but bit 0, in the order the source adds them. */
  method FirstFlag(tile: Tile, k: nat) returns (a: byte)
    ensures a + (if NeedsB(tile) then 1 else 0) == FlagA(tile, k)
  {
    a := 0;
    if tile.block.Some? {
      a := a + 2;
      if tile.block.value.id >= 256 {
        a := a + 32;
      }
    }
    if tile.wall.Some? {
      a := a + 4;
    }
    if tile.liquid.Some? {
      a := a + (LiquidCode(tile.liquid.value.kind) << 3);
    }
    if k > 0 {
      a := a + 64;
      if k >= 256 {
        a := a + 64;
      }
    }
  }

  /** The field bytes of src/write.rs:271-334, pushed in the source's
      order: the block arm, the wall arm, the liquid amount, then the
      repeat count. */
  method FieldPushes(tile: Tile, k: nat, importance: seq<bool>) returns (temp: Bytes)
    requires Covered(tile, importance)
    ensures temp == FieldBytes(tile, k, importance)
  {
    temp := BlockFields(tile.block, importance);
    var wall := WallFields(tile.wall);
    temp := temp + wall;
    if tile.liquid.Some? {
      temp := temp + [tile.liquid.value.amount];
    }
    var count := CountFields(k);
    temp := temp + count;
  }

  /** `if c > 0 { temp.insert(0, c); b += 1 }`, `if b > 0 {
      temp.insert(0, b); a += 1 }`, then `a` written before `temp`: the
      bytes are `a`, `b` and `c` when present, then `temp`. */
  method Prefixed(a0: byte, b0: byte, c: byte, temp0: Bytes) returns (rec: Bytes)
    ensures var b := if c > 0 then b0 + 1 else b0;
            var a := if b > 0 then a0 + 1 else a0;
            rec == [a] + (if b > 0 then [b] else []) + (if c > 0 then [c] else []) + temp0
  {
    var a, b, temp := a0, b0, temp0;
    if c > 0 {
      temp := [c] + temp;
      b := b + 1;
    }
    if b > 0 {
      temp := [b] + temp;
      a := a + 1;
    }
    rec := [a] + temp;
  }

  /** The block arm's bytes: the id, its high byte when wide, the anchor
      when the importance table flags the id (a missing anchor as
      (0, 0)), the paint. */
  method BlockFields(block: Option<Block>, importance: seq<bool>) returns (temp: Bytes)
    requires block.Some? ==> block.value.id < |importance|
    ensures temp == BlockBytes(block, importance)
  {
    temp := [];
    if block.Some? {
      var Block(id, color, uv, _, _) := block.value;
      temp := IdPush(id);
      if importance[id] {
        var (u, v) := if uv.Some? then uv.value else (0, 0);
        var anchor := Anchor(u, v);
        temp := temp + anchor;
      }
      if color.Some? {
        temp := temp + [color.value];
      }
    }
  }

  /** `id as u8`, then `(id >> 8) as u8` when `id >= 256`. */
  method IdPush(id: u16) returns (bytes: Bytes)
    ensures bytes == IdBytes(id)
  {
    bytes := [(id % 256) as byte];
    if id >= 256 {
      bytes := bytes + [(id / 256) as byte];
    }
  }

  /** `uv.0 as u8, (uv.0 >> 8) as u8, uv.1 as u8, (uv.1 >> 8) as u8` */
  method Anchor(u: u16, v: u16) returns (bytes: Bytes)
    ensures bytes == U16Bytes(u) + U16Bytes(v)
  {
    U16Digits(u);
    U16Digits(v);
    bytes := [(u % 256) as byte, (u / 256) as byte, (v % 256) as byte, (v / 256) as byte];
  }

  /** The wall arm's bytes: the id, its high byte when wide, the paint. */
  method WallFields(wall: Option<Wall>) returns (temp: Bytes)
    ensures temp == WallBytes(wall)
  {
    temp := [];
    if wall.Some? {
      var Wall(id, color) := wall.value;
      temp := IdPush(id);
      if color.Some? {
        temp := temp + [color.value];
      }
    }
  }

  /** The repeat count: `k as u8`, then `(k >> 8) as u8` when
      `k >= 256`. */
  method CountFields(k: nat) returns (temp: Bytes)
    ensures temp == CountBytes(k)
  {
    temp := [];
    if k > 0 {
      temp := temp + [(k % 0x100) as byte];
      if k >= 256 {
        temp := temp + [((k / 0x100) % 0x100) as byte];
      }
    }
  }

  /** Writing item `i` of a list moves the loop on to item `i + 1`. */
  lemma ManyStep<T>(goal: Bytes, data: Bytes, xs: seq<T>, enc: T -> Bytes, i: nat)
    requires i < |xs| && goal == data + ManyBytes(xs[i..], enc)
    ensures goal == (data + enc(xs[i])) + ManyBytes(xs[i + 1..], enc)
  {
    assert xs[i..][1..] == xs[i + 1..];
    Assoc(data, enc(xs[i]), ManyBytes(xs[i + 1..], enc));
  }

  /** Writing field `i` moves the header loop on to field `i + 1`. */
  lemma FieldStep(goal: Bytes, data: Bytes, schema: seq<Kind>, values: seq<Value>, i: nat)
    requires i < |schema| == |values| && Conforms(schema[i..], values[i..])
    requires goal == data + ValuesBytes(schema[i..], values[i..])
    ensures Fits(schema[i], values[i]) && Conforms(schema[i + 1..], values[i + 1..])
    ensures goal == (data + ValueBytes(schema[i], values[i])) + ValuesBytes(schema[i + 1..], values[i + 1..])
  {
    assert schema[i..][0] == schema[i] && values[i..][0] == values[i];
    assert schema[i..][1..] == schema[i + 1..] && values[i..][1..] == values[i + 1..];
    Assoc(data, ValueBytes(schema[i], values[i]), ValuesBytes(schema[i + 1..], values[i + 1..]));
  }

  /** Writing `true` and item `x` moves a sentinel loop past `x`. */
  lemma SentinelStep<T>(goal: Bytes, data: Bytes, x: T, xs: seq<T>, enc: T -> Bytes)
    requires goal == data + SentinelBytes([x] + xs, enc)
    ensures goal == (data + BoolBytes(true) + enc(x)) + SentinelBytes(xs, enc)
  {
    assert ([x] + xs)[1..] == xs;
  }

  /** The town NPCs from `i` on: NPC `i` unless it is a pillar, then those
      after it. */
  lemma TownsStep(npcs: seq<Npc>, i: nat)
    requires i < |npcs|
    ensures npcs[i].isPillar ==> Towns(npcs[i..]) == Towns(npcs[i + 1..])
    ensures !npcs[i].isPillar ==> Towns(npcs[i..]) == [npcs[i]] + Towns(npcs[i + 1..])
  {
    assert npcs[i..][1..] == npcs[i + 1..];
    assert [] + Towns(npcs[i + 1..]) == Towns(npcs[i + 1..]);
  }

  /** The pillars from `i` on: NPC `i` if it is one, then those after it. */
  lemma PillarsStep(npcs: seq<Npc>, i: nat)
    requires i < |npcs|
    ensures npcs[i].isPillar ==> Pillars(npcs[i..]) == [npcs[i]] + Pillars(npcs[i + 1..])
    ensures !npcs[i].isPillar ==> Pillars(npcs[i..]) == Pillars(npcs[i + 1..])
  {
    assert npcs[i..][1..] == npcs[i + 1..];
    assert [] + Pillars(npcs[i + 1..]) == Pillars(npcs[i + 1..]);
  }

  /** The loop of src/write.rs:388-393: the ids of the shimmered NPCs in
      order, and their number as the u32 `n` that counts them. */
  method GatherShimmered(npcs: seq<Npc>) returns (temp: seq<u32>, n: u32)
    ensures temp == ShimmeredIds(npcs) && n == |temp| % 0x1_0000_0000
  {
    temp := [];
    n := 0;
    var i := 0;
    while i < |npcs|
      invariant 0 <= i <= |npcs|
      invariant ShimmeredIds(npcs) == temp + ShimmeredIds(npcs[i..])
      invariant n == |temp| % 0x1_0000_0000
    {
      ShimmeredStep(npcs, i, temp);
      if npcs[i].shimmered {
        temp := temp + [npcs[i].id];
        n := (n + 1) % 0x1_0000_0000;
      }
      i := i + 1;
    }
    assert npcs[i..] == [];
  }

  /** One NPC more: a shimmered one moves its id into the gathered ids. */
  lemma ShimmeredStep(npcs: seq<Npc>, i: nat, temp: seq<u32>)
    requires i < |npcs|
    ensures temp + ShimmeredIds(npcs[i..])
            == (if npcs[i].shimmered then temp + [npcs[i].id] else temp) + ShimmeredIds(npcs[i + 1..])
  {
    assert npcs[i..][1..] == npcs[i + 1..];
    if npcs[i].shimmered {
      assert temp + ([npcs[i].id] + ShimmeredIds(npcs[i + 1..])) == (temp + [npcs[i].id]) + ShimmeredIds(npcs[i + 1..]);
    } else {
      assert [] + ShimmeredIds(npcs[i + 1..]) == ShimmeredIds(npcs[i + 1..]);
    }
  }

  /** `n` zero offsets: the slots `write` reserves and has not yet
      marked. */
  function Zeros(n: nat): (z: seq<u32>)
    ensures |z| == n && forall i :: 0 <= i < n ==> z[i] == 0
  {
    seq(n, _ => 0)
  }

  /** The values `mark` has written once the parts in `done` are written:
      for each part, the length of the output up to its end. */
  ghost function Marks(done: seq<Bytes>): (marks: seq<u32>)
    ensures |marks| == |done|
  {
    if done == [] then []
    else Marks(done[..|done| - 1]) + [(TableEnd + |Joined(done)|) % 0x1_0000_0000]
  }

  /** The output once the parts in `done` are written and each has been
      marked: the prefix, the offsets table with the slots of `done`
      filled in and the others still zero, then the parts. */
  ghost function Draft(prefix: Bytes, done: seq<Bytes>): Bytes
    requires |done| <= Checkpoints
  {
    prefix + List16Bytes(Marks(done) + Zeros(Checkpoints - |done|), U32Bytes) + Joined(done)
  }

  lemma ManyConcat<T>(xs: seq<T>, ys: seq<T>, enc: T -> Bytes)
    ensures ManyBytes(xs + ys, enc) == ManyBytes(xs, enc) + ManyBytes(ys, enc)
  {
    ManyBytesSplit(xs + ys, enc, |xs|);
    assert (xs + ys)[..|xs|] == xs && (xs + ys)[|xs|..] == ys;
  }

  lemma JoinedSnoc(done: seq<Bytes>, part: Bytes)
    ensures Joined(done + [part]) == Joined(done) + part
  {
    var all := done + [part];
    JoinedSplit(all, |done|);
    assert all[..|done|] == done && all[|done|..] == [part];
    assert Joined([part]) == part + Joined([]);
  }

  /** One more part: the offsets of the earlier parts stay, and the new
      one is the length up to its end. */
  lemma OffsetsSnoc(done: seq<Bytes>, part: Bytes)
    ensures Offsets(done + [part]) == Offsets(done) + [(TableEnd + |Joined(done + [part])|) % 0x1_0000_0000]
  {
    var all := done + [part];
    forall i | 0 <= i < |done|
      ensures Offsets(all)[i] == Offsets(done)[i]
    {
      assert all[..i + 1] == done[..i + 1];
    }
    assert all[..|done| + 1] == all;
  }

  /** What `mark` writes are the offsets of the finished file. */
  lemma {:induction false} MarksAreOffsets(done: seq<Bytes>)
    ensures Marks(done) == Offsets(done)
    decreases |done|
  {
    if done != [] {
      var last := |done| - 1;
      MarksAreOffsets(done[..last]);
      assert done[..last] + [done[last]] == done;
      OffsetsSnoc(done[..last], done[last]);
    }
  }

  /** Cutting a sequence around a middle piece. */
  lemma Splice(x: Bytes, m: Bytes, y: Bytes)
    ensures (x + m + y)[..|x|] == x && (x + m + y)[|x| + |m|..] == y
  {
  }

  /** The offsets table with slot `|offsets|` holding `v`. */
  lemma Slot(offsets: seq<u32>, v: u32, rest: seq<u32>)
    ensures ManyBytes(offsets + [v] + rest, U32Bytes)
            == ManyBytes(offsets, U32Bytes) + U32Bytes(v) + ManyBytes(rest, U32Bytes)
  {
    var one: seq<u32> := [v];
    var none: seq<u32> := [];
    ManyConcat(offsets + one, rest, U32Bytes);
    ManyConcat(offsets, one, U32Bytes);
    assert ManyBytes(one, U32Bytes) == U32Bytes(v) + ManyBytes(none, U32Bytes);
  }

  /** A draft cut around slot `|offsets|` of its table. */
  lemma Reshape(prefix: Bytes, offsets: seq<u32>, v: u32, rest: seq<u32>, parts: Bytes)
    requires |offsets| + 1 + |rest| == Checkpoints
    ensures prefix + List16Bytes(offsets + [v] + rest, U32Bytes) + parts
            == (prefix + U16Bytes(Checkpoints) + ManyBytes(offsets, U32Bytes)) + U32Bytes(v)
               + (ManyBytes(rest, U32Bytes) + parts)
  {
    var all: seq<u32> := offsets + [v] + rest;
    assert |all| == Checkpoints;
    assert |all| % 0x1_0000 == Checkpoints;
    assert List16Bytes(all, U32Bytes) == U16Bytes(Checkpoints) + ManyBytes(all, U32Bytes);
    Slot(offsets, v, rest);
    Regroup(prefix, U16Bytes(Checkpoints), ManyBytes(offsets, U32Bytes), U32Bytes(v), ManyBytes(rest, U32Bytes), parts);
  }

  lemma Regroup(a: Bytes, b: Bytes, c: Bytes, d: Bytes, e: Bytes, f: Bytes)
    ensures a + (b + (c + d + e)) + f == (a + b + c) + d + (e + f)
  {
    Assoc(a, b, c + d + e);
    Assoc(a + b, c + d, e);
    Assoc(a + b, c, d);
    Assoc(a + b + c + d, e, f);
  }

  lemma ZerosCons(n: nat)
    requires n > 0
    ensures Zeros(n) == [0] + Zeros(n - 1)
  {
  }

  /** The draft up to slot `|done|` of the offsets table. */
  ghost function Head(prefix: Bytes, done: seq<Bytes>): Bytes
  {
    prefix + U16Bytes(Checkpoints) + ManyBytes(Marks(done), U32Bytes)
  }

  /** The draft after slot `|done|` of the offsets table, with `part`
      written. */
  ghost function Tail(done: seq<Bytes>, part: Bytes): Bytes
    requires |done| < Checkpoints
  {
    ManyBytes(Zeros(Checkpoints - |done| - 1), U32Bytes) + (Joined(done) + part)
  }

  /** Before `mark(k)`, slot `k` holds zero. */
  lemma Unmarked(prefix: Bytes, done: seq<Bytes>, part: Bytes)
    requires |prefix| == 24 && |done| < Checkpoints
    ensures Draft(prefix, done) + part == Head(prefix, done) + U32Bytes(0) + Tail(done, part)
    ensures |Head(prefix, done)| == TableStart + 4 * |done|
    ensures |Draft(prefix, done) + part| == TableEnd + |Joined(done) + part|
  {
    var k := |done|;
    var offsets := Marks(done);
    var rest := Zeros(Checkpoints - k - 1);
    ZerosCons(Checkpoints - k);
    assert offsets + Zeros(Checkpoints - k) == offsets + [0] + rest;
    Reshape(prefix, offsets, 0, rest, Joined(done) + part);
    U32sLength(offsets);
    U32sLength(rest);
  }

  /** After `mark(k)`, slot `k` holds the length of the output. */
  lemma Marked(prefix: Bytes, done: seq<Bytes>, part: Bytes)
    requires |done| < Checkpoints
    ensures Draft(prefix, done + [part])
            == Head(prefix, done) + U32Bytes((TableEnd + |Joined(done) + part|) % 0x1_0000_0000) + Tail(done, part)
  {
    var rest := Zeros(Checkpoints - |done| - 1);
    var v: u32 := (TableEnd + |Joined(done) + part|) % 0x1_0000_0000;
    var table: seq<u32> := Marks(done) + [v] + rest;
    assert Draft(prefix, done + [part]) == prefix + List16Bytes(table, U32Bytes) + (Joined(done) + part) by {
      JoinedSnoc(done, part);
      assert (done + [part])[..|done|] == done;
      assert Marks(done + [part]) == Marks(done) + [v];
    }
    Reshape(prefix, Marks(done), v, rest, Joined(done) + part);
  }

  /** `mark(k)` after part `k`: the slot of part `k` now holds the length
      of the output, and the output is the draft with that part done. */
  lemma MarkStep(prefix: Bytes, done: seq<Bytes>, part: Bytes)
    requires |prefix| == 24 && |done| < Checkpoints
    ensures var d, k := Draft(prefix, done) + part, |done|;
            && TableStart + 4 * k + 4 <= |d|
            && d[..TableStart + 4 * k] + U32Bytes(|d| % 0x1_0000_0000) + d[TableStart + 4 * k + 4..]
               == Draft(prefix, done + [part])
  {
    Unmarked(prefix, done, part);
    Marked(prefix, done, part);
    Splice(Head(prefix, done), U32Bytes(0), Tail(done, part));
  }

  /** After the reserve, nothing is marked yet. */
  lemma Started(prefix: Bytes)
    ensures Draft(prefix, []) == prefix + List16Bytes(Zeros(Checkpoints), U32Bytes)
  {
    assert Marks([]) + Zeros(Checkpoints) == Zeros(Checkpoints);
  }

  /** With all eleven parts marked, the draft and the trailer make the file
      `WorldBytes` describes. */
  lemma Finished(world: World, prefix: Bytes)
    requires Writable(world) && prefix == PrefixBytes(world.prefix)
    ensures Draft(prefix, Sections(world)) + TrailerBytes(Name(world.header), Id(world.header)) == WorldBytes(world)
  {
    var done := Sections(world);
    assert Draft(prefix, done) == prefix + List16Bytes(Offsets(done), U32Bytes) + Joined(done) by {
      MarksAreOffsets(done);
      assert Marks(done) + Zeros(0) == Offsets(done);
    }
  }

  class Writer {
    /** `data`: everything written so far. */
    var data: Bytes

    constructor()
      ensures data == []
    {
      data := [];
    }

    method U8(n: byte)
      modifies this
      ensures data == old(data) + [n]
    {
      data := data + [n];
    }

    method U16(n: u16)
      modifies this
      ensures data == old(data) + U16Bytes(n)
    {
      data := data + LeBytes(n, 2);
    }

    /** Also `f32`, which writes the bits of its argument. */
    method U32(n: u32)
      modifies this
      ensures data == old(data) + U32Bytes(n)
    {
      data := data + LeBytes(n, 4);
    }

    /** Also `f64`, which writes the bits of its argument. */
    method U64(n: u64)
      modifies this
      ensures data == old(data) + U64Bytes(n)
    {
      data := data + LeBytes(n, 8);
    }

    method U128(n: u128)
      modifies this
      ensures data == old(data) + U128Bytes(n)
    {
      data := data + LeBytes(n, 16);
    }

    method Bool(b: bool)
      modifies this
      ensures data == old(data) + BoolBytes(b)
    {
      data := data + [if b then 1 else 0];
    }

    /** `len as u8`, then the bytes. */
    method String(s: Bytes)
      modifies this
      ensures data == old(data) + StringBytes(s)
    {
      data := data + [(|s| % 256) as byte];
      data := data + s;
    }

    /** `mark(i)` (src/write.rs:10-16): the current length, cut to 32 bits,
        overwrites slot `i` of the offsets table, bytes `26 + 4i` to
        `29 + 4i`; the length and every other byte stay.  Indexing past the
        end panics in the source. */
    method Mark(i: nat)
      requires TableStart + 4 * i + 4 <= |data|
      modifies this
      ensures |data| == old(|data|)
      ensures data == old(data)[..TableStart + 4 * i] + U32Bytes(old(|data|) % 0x1_0000_0000)
                      + old(data)[TableStart + 4 * i + 4..]
      ensures forall j :: 0 <= j < |data| && !(TableStart + 4 * i <= j < TableStart + 4 * i + 4)
                          ==> data[j] == old(data[j])
    {
      var n := |data| % 0x1_0000_0000;
      var at := TableStart + 4 * i;
      data := data[at := (n % 0x100) as byte];
      data := data[at + 1 := ((n / 0x100) % 0x100) as byte];
      data := data[at + 2 := ((n / 0x1_0000) % 0x100) as byte];
      data := data[at + 3 := ((n / 0x100_0000) % 0x100) as byte];
      U32Digits(n);
      Overwrite4(old(data), at, U32Bytes(n), data);
    }

    /** `for x in xs { .. }` where the body writes `enc(x)`. */
    method Items<T>(xs: seq<T>, enc: T -> Bytes)
      modifies this
      ensures data == old(data) + ManyBytes(xs, enc)
    {
      var i := 0;
      while i < |xs|
        invariant 0 <= i <= |xs|
        invariant old(data) + ManyBytes(xs, enc) == data + ManyBytes(xs[i..], enc)
      {
        assert xs[i..][1..] == xs[i + 1..];
        data := data + enc(xs[i]);
        i := i + 1;
      }
      assert xs[|xs|..] == [];
    }

    /** `w.u16(xs.len() as u16)`, then the items. */
    method List16<T>(xs: seq<T>, enc: T -> Bytes)
      modifies this
      ensures data == old(data) + List16Bytes(xs, enc)
    {
      U16(|xs| % 0x1_0000);
      Items(xs, enc);
    }

    /** `w.u32(xs.len() as u32)`, then the items. */
    method List32<T>(xs: seq<T>, enc: T -> Bytes)
      modifies this
      ensures data == old(data) + List32Bytes(xs, enc)
    {
      U32(|xs| % 0x1_0000_0000);
      Items(xs, enc);
    }

    /** `for x in xs { w.bool(true); .. } w.bool(false)` */
    method Sentinel<T>(xs: seq<T>, enc: T -> Bytes)
      modifies this
      ensures data == old(data) + SentinelBytes(xs, enc)
    {
      var i := 0;
      while i < |xs|
        invariant 0 <= i <= |xs|
        invariant old(data) + SentinelBytes(xs, enc) == data + SentinelBytes(xs[i..], enc)
      {
        assert xs[i..][1..] == xs[i + 1..];
        Bool(true);
        data := data + enc(xs[i]);
        i := i + 1;
      }
      assert xs[|xs|..] == [];
      Bool(false);
    }

    /** The importance table (src/write.rs:49-66): the length as a u16, then
        an accumulator that adds `1 << i` for each set flag and is flushed
        every eighth flag, and once more for a last partial byte. */
    method Importance(flags: seq<bool>)
      modifies this
      ensures data == old(data) + TableBytes(flags)
    {
      U16(|flags| % 0x1_0000);
      Flags(flags);
      Assoc(old(data), U16Bytes(|flags| % 0x1_0000), Pack(flags));
    }

    /** The flags of the importance table, eight to a byte. */
    method Flags(flags: seq<bool>)
      modifies this
      ensures data == old(data) + Pack(flags)
    {
      ghost var start := data;
      ghost var s := 0;
      var i: nat := 0;
      var n: byte := 0;
      var j := 0;
      while j < |flags|
        invariant 0 <= i < 8 && s + i == j <= |flags|
        invariant start + Pack(flags) == data + Pack(flags[s..])
        invariant n == PackByte(flags[s..j])
      {
        PackAdvance(start, data, flags, s, i, j, n);
        if flags[j] {
          n := n + ((1 as byte) << (i as bv3));
        }
        i := i + 1;
        if i >= 8 {
          U8(n);
          n := 0;
          i := 0;
          s := s + 8;
          assert flags[s..s] == [];
        }
        j := j + 1;
      }
      if i != 0 {
        PackLast(flags, s);
        U8(n);
      } else {
        assert flags[s..] == [];
      }
    }

    /** The tile plane (src/write.rs:252-348): column by column, each run
        of equal tiles that does not cross a column edge becomes one
        record, laid out as `RecordBytes` states, with repeat count
        `k = i - start - 1`.  The loop bound `width * height` is a u32
        product that the source computes unchecked, and `tiles` must cover
        it. */
    method Plane(tiles: seq<Tile>, width: u32, height: u32, importance: seq<bool>)
      requires width * height < 0x1_0000_0000 && PlaneCovered(tiles, width, height, importance)
      modifies this
      ensures data == old(data) + PlaneBytes(tiles, width, height, importance)
    {
      var total := width * height;
      var cells := tiles[..total];
      if height == 0 {
        return;
      }
      EdgeProduct(width, height);
      Runs(cells, height, importance);
    }

    /** The loop `while i < width * height` over whole columns of cells:
        each scan finds the end of a run, and its record is appended. */
    method Runs(cells: seq<Tile>, height: u32, importance: seq<bool>)
      requires height > 0 && Edge(|cells|, height) && AllCovered(cells, importance)
      modifies this
      ensures data == old(data) + EncodeRuns(cells, height, TileRecord(importance), 0)
    {
      ghost var goal := data + EncodeRuns(cells, height, TileRecord(importance), 0);
      var i := 0;
      while i < |cells|
        invariant 0 <= i <= |cells|
        invariant goal == data + EncodeRuns(cells, height, TileRecord(importance), i)
        decreases |cells| - i
      {
        var start := i;
        i := RunScan(cells, height, start);
        var rec := RunBytes(cells, start, i, importance);
        RunRecord(goal, data, cells, height, TileRecord(importance), start, i, rec);
        data := data + rec;
      }
    }

    /** One header field, as its kind writes it: a scalar, a string, or a
        counted list of strings or of u32s. */
    method Field(k: Kind, v: Value)
      requires Fits(k, v)
      modifies this
      ensures data == old(data) + ValueBytes(k, v)
    {
      match k
      case KU8 => U8(v.b);
      case KBool => Bool(v.flag);
      case KU16 => U16(v.n16);
      case KU32 => U32(v.n32);
      case KU64 => U64(v.n64);
      case KU128 => U128(v.n128);
      case KF32 => U32(v.bits32);
      case KF64 => U64(v.bits64);
      case KString => String(v.text);
      case KStrings => List32(v.texts, StringBytes);
      case KU32sByU16 => List16(v.numbers, U32Bytes);
      case KU32s => List32(v.numbers, U32Bytes);
      case KTreeTop => List32(v.numbers, U32Bytes);
    }

    /** The fields of `values` in schema order. */
    method Fields(schema: seq<Kind>, values: seq<Value>)
      requires Conforms(schema, values)
      modifies this
      ensures data == old(data) + ValuesBytes(schema, values)
    {
      assert schema[0..] == schema && values[0..] == values;
      var i := 0;
      while i < |schema|
        invariant 0 <= i <= |schema|
        invariant Conforms(schema[i..], values[i..])
        invariant old(data) + ValuesBytes(schema, values) == data + ValuesBytes(schema[i..], values[i..])
      {
        FieldStep(old(data) + ValuesBytes(schema, values), data, schema, values, i);
        Field(schema[i], values[i]);
        i := i + 1;
      }
    }

    /** The header (src/write.rs:73-245): every field in schema order,
        except that `jungle_bg` is written before `ice_bg`. */
    method Header(h: seq<Value>)
      requires WellFormedHeader(h)
      modifies this
      ensures data == old(data) + HeaderBytes(h)
    {
      SwapKeepsShape(h);
      Fields(HeaderSchema, SwapBackgrounds(h));
    }

    /** A chest slot: count, prefix and id, or a u16 zero when empty. */
    method Slot(slot: Option<Item>)
      modifies this
      ensures data == old(data) + SlotBytes(slot)
    {
      match slot
      case None => U16(0);
      case Some(item) =>
        U16(item.count);
        U8(item.prefix);
        U32(item.id);
    }

    /** `for item in &chest.items { .. }` */
    method Slots(items: seq<Option<Item>>)
      modifies this
      ensures data == old(data) + ManyBytes(items, SlotBytes)
    {
      var i := 0;
      while i < |items|
        invariant 0 <= i <= |items|
        invariant old(data) + ManyBytes(items, SlotBytes) == data + ManyBytes(items[i..], SlotBytes)
      {
        ManyStep(old(data) + ManyBytes(items, SlotBytes), data, items, SlotBytes, i);
        Slot(items[i]);
        i := i + 1;
      }
      assert items[i..] == [];
    }

    method Chest(chest: Chest)
      modifies this
      ensures data == old(data) + ChestBytes(chest)
    {
      U32(chest.x);
      U32(chest.y);
      String(chest.name);
      Slots(chest.items);
      Assoc(old(data), U32Bytes(chest.x) + U32Bytes(chest.y) + StringBytes(chest.name), ManyBytes(chest.items, SlotBytes));
    }

    /** `for chest in &wld.chests { .. }` */
    method ChestList(chests: seq<Chest>)
      modifies this
      ensures data == old(data) + ManyBytes(chests, ChestBytes)
    {
      var i := 0;
      while i < |chests|
        invariant 0 <= i <= |chests|
        invariant old(data) + ManyBytes(chests, ChestBytes) == data + ManyBytes(chests[i..], ChestBytes)
      {
        ManyStep(old(data) + ManyBytes(chests, ChestBytes), data, chests, ChestBytes, i);
        Chest(chests[i]);
        i := i + 1;
      }
      assert chests[i..] == [];
    }

    /** The chests (src/write.rs:355-367): the count as a u16, the slot
        count 40, then each chest with all of its slots. */
    method Chests(chests: seq<Chest>)
      modifies this
      ensures data == old(data) + ChestsBytes(chests)
    {
      U16(|chests| % 0x1_0000);
      U16(SlotsPerChest);
      ChestList(chests);
      Assoc(old(data), U16Bytes(|chests| % 0x1_0000) + U16Bytes(SlotsPerChest), ManyBytes(chests, ChestBytes));
    }

    /** The signs (src/write.rs:374-379): a u16 count, then text, x and y
        of each. */
    method Signs(signs: seq<Sign>)
      modifies this
      ensures data == old(data) + SignsBytes(signs)
    {
      List16(signs, SignBytes);
    }

    method Variation(variation: u32)
      modifies this
      ensures data == old(data) + VariationBytes(variation)
    {
      if variation == 0 {
        Bool(false);
      } else {
        Bool(true);
        U32(variation);
      }
    }

    /** A town NPC (src/write.rs:399-410). */
    method Town(npc: Npc)
      modifies this
      ensures data == old(data) + TownBytes(npc)
    {
      ghost var o := data;
      U32(npc.id);
      String(npc.name);
      ghost var a := U32Bytes(npc.id) + StringBytes(npc.name);
      Assoc(o, U32Bytes(npc.id), StringBytes(npc.name));
      U32(npc.x);
      U32(npc.y);
      Bool(npc.homeless);
      ghost var b := a + U32Bytes(npc.x) + U32Bytes(npc.y) + BoolBytes(npc.homeless);
      assert data == o + b;
      U32(npc.homeX);
      U32(npc.homeY);
      Variation(npc.variationIndex);
      assert data == o + (b + U32Bytes(npc.homeX) + U32Bytes(npc.homeY) + VariationBytes(npc.variationIndex));
    }

    /** A pillar (src/write.rs:415-418). */
    method Pillar(npc: Npc)
      modifies this
      ensures data == old(data) + PillarBytes(npc)
    {
      U32(npc.id);
      U32(npc.x);
      U32(npc.y);
    }

    /** `for npc in &wld.npcs { if npc.is_pillar { continue } .. }
        w.bool(false)`: a sentinel list of the town NPCs. */
    method TownList(npcs: seq<Npc>)
      modifies this
      ensures data == old(data) + SentinelBytes(Towns(npcs), TownBytes)
    {
      var i := 0;
      while i < |npcs|
        invariant 0 <= i <= |npcs|
        invariant old(data) + SentinelBytes(Towns(npcs), TownBytes) == data + SentinelBytes(Towns(npcs[i..]), TownBytes)
      {
        TownsStep(npcs, i);
        if npcs[i].isPillar {
          i := i + 1;
          continue;
        }
        SentinelStep(old(data) + SentinelBytes(Towns(npcs), TownBytes), data, npcs[i], Towns(npcs[i + 1..]), TownBytes);
        Bool(true);
        Town(npcs[i]);
        i := i + 1;
      }
      assert npcs[i..] == [];
      Bool(false);
    }

    /** `for npc in &wld.npcs { if !npc.is_pillar { continue } .. }
        w.bool(false)`: a sentinel list of the pillars. */
    method PillarList(npcs: seq<Npc>)
      modifies this
      ensures data == old(data) + SentinelBytes(Pillars(npcs), PillarBytes)
    {
      var i := 0;
      while i < |npcs|
        invariant 0 <= i <= |npcs|
        invariant old(data) + SentinelBytes(Pillars(npcs), PillarBytes) == data + SentinelBytes(Pillars(npcs[i..]), PillarBytes)
      {
        PillarsStep(npcs, i);
        if !npcs[i].isPillar {
          i := i + 1;
          continue;
        }
        SentinelStep(old(data) + SentinelBytes(Pillars(npcs), PillarBytes), data, npcs[i], Pillars(npcs[i + 1..]), PillarBytes);
        Bool(true);
        Pillar(npcs[i]);
        i := i + 1;
      }
      assert npcs[i..] == [];
      Bool(false);
    }

    /** The shimmered NPCs' ids (src/write.rs:386-395), counted in a u32
        that wraps, then written as a u32-counted list. */
    method Shimmered(npcs: seq<Npc>)
      modifies this
      ensures data == old(data) + List32Bytes(ShimmeredIds(npcs), U32Bytes)
    {
      var temp, n := GatherShimmered(npcs);
      U32(n);
      Items(temp, U32Bytes);
      Assoc(old(data), U32Bytes(n), ManyBytes(temp, U32Bytes));
    }

    /** The NPCs (src/write.rs:386-420): the shimmered ids, then the town
        NPCs and the pillars, each list closed by `false`. */
    method Npcs(npcs: seq<Npc>)
      modifies this
      ensures data == old(data) + NpcsBytes(npcs)
    {
      Shimmered(npcs);
      TownList(npcs);
      ghost var shimmered := List32Bytes(ShimmeredIds(npcs), U32Bytes);
      Assoc(old(data), shimmered, SentinelBytes(Towns(npcs), TownBytes));
      PillarList(npcs);
      Assoc(old(data), shimmered + SentinelBytes(Towns(npcs), TownBytes), SentinelBytes(Pillars(npcs), PillarBytes));
    }

    /** An item held by a tile entity: the id cut to a u16, the prefix and
        the count. */
    method HeldItem(item: Item)
      modifies this
      ensures data == old(data) + ItemBytes(item)
    {
      U16(item.id % 0x1_0000);
      U8(item.prefix);
      U16(item.count);
    }

    /** The slot of an item frame, weapon rack or food platter: a u32 zero
        and a u8 zero when empty. */
    method Held(held: Option<Item>)
      modifies this
      ensures data == old(data) + HeldBytes(held)
    {
      match held
      case None =>
        U32(0);
        U8(0);
      case Some(item) => HeldItem(item);
    }

    /** `for item in items { if let Some(item) = item { .. } }` */
    method Present(slots: seq<Option<Item>>)
      modifies this
      ensures data == old(data) + PresentBytes(slots)
    {
      var i := 0;
      while i < |slots|
        invariant 0 <= i <= |slots|
        invariant old(data) + PresentBytes(slots) == data + PresentBytes(slots[i..])
      {
        assert slots[i..][1..] == slots[i + 1..];
        if slots[i].Some? {
          Assoc(data, ItemBytes(slots[i].value), PresentBytes(slots[i + 1..]));
          HeldItem(slots[i].value);
        } else {
          assert [] + PresentBytes(slots[i + 1..]) == PresentBytes(slots[i + 1..]);
        }
        i := i + 1;
      }
      assert slots[i..] == [];
    }

    /** A mannequin's sixteen slots: a u16 mask of the occupied ones, then
        their items. */
    method MannequinSlots(slots: MannequinSlots)
      modifies this
      ensures SlotMask(slots) < 0x1_0000
      ensures data == old(data) + U16Bytes(SlotMask(slots)) + PresentBytes(slots)
    {
      Arith.Pow2Widths();
      U16(SlotMask(slots));
      Present(slots);
    }

    /** A hat rack's four slots: a u8 mask of the occupied ones, then their
        items. */
    method HatRackSlots(hats: HatRackSlots)
      modifies this
      ensures SlotMask(hats) < 0x100
      ensures data == old(data) + [SlotMask(hats) as byte] + PresentBytes(hats)
    {
      Arith.Pow2Widths();
      Arith.ByteValue(SlotMask(hats));
      U8(SlotMask(hats) as byte);
      Present(hats);
    }

    /** The variant data of a tile entity (src/write.rs:442-472). */
    method Info(info: TileEntityInfo)
      modifies this
      ensures data == old(data) + InfoBytes(info)
    {
      match info
      case TargetDummy(npc) => U16(npc);
      case ItemFrame(held) => Held(held);
      case LogicSensor(check, on) =>
        U8(check);
        Bool(on);
      case Mannequin(slots) =>
        MannequinSlots(slots);
        Assoc(old(data), U16Bytes(SlotMask(slots)), PresentBytes(slots));
      case WeaponRack(held) => Held(held);
      case HatRack(hats) =>
        HatRackSlots(hats);
        Assoc(old(data), [SlotMask(hats) as byte], PresentBytes(hats));
      case FoodPlatter(held) => Held(held);
      case Pylon =>
        assert data == old(data) + [];
    }

    /** A tile entity (src/write.rs:428-473): its tag, id and position,
        then its variant data. */
    method Entity(entity: TileEntity)
      modifies this
      ensures data == old(data) + EntityBytes(entity)
    {
      U8(Tag(entity.info));
      U32(entity.id);
      U16(entity.x);
      U16(entity.y);
      Info(entity.info);
    }

    /** The tile entities (src/write.rs:427-473): a u32 count, then each
        entity. */
    method Entities(entities: seq<TileEntity>)
      modifies this
      ensures data == old(data) + EntitiesBytes(entities)
    {
      U32(|entities| % 0x1_0000_0000);
      ghost var mid := data;
      var i := 0;
      while i < |entities|
        invariant 0 <= i <= |entities|
        invariant mid + ManyBytes(entities, EntityBytes) == data + ManyBytes(entities[i..], EntityBytes)
      {
        ManyStep(mid + ManyBytes(entities, EntityBytes), data, entities, EntityBytes, i);
        Entity(entities[i]);
        i := i + 1;
      }
      assert entities[i..] == [];
      Assoc(old(data), U32Bytes(|entities| % 0x1_0000_0000), ManyBytes(entities, EntityBytes));
    }

    /** The weighted pressure plates (src/write.rs:477-481). */
    method Plates(plates: seq<(u32, u32)>)
      modifies this
      ensures data == old(data) + PlatesBytes(plates)
    {
      List32(plates, PlateBytes);
    }

    /** The NPC rooms (src/write.rs:485-490). */
    method Rooms(rooms: seq<NpcRoom>)
      modifies this
      ensures data == old(data) + RoomsBytes(rooms)
    {
      List32(rooms, RoomBytes);
    }

    /** The bestiary (src/write.rs:494-506): kills, sightings and chats,
        each a u32-counted list. */
    method Bestiary(b: Bestiary)
      modifies this
      ensures data == old(data) + BestiaryBytes(b)
    {
      List32(b.kills, KillBytes);
      List32(b.sights, StringBytes);
      Assoc(old(data), List32Bytes(b.kills, KillBytes), List32Bytes(b.sights, StringBytes));
      List32(b.chats, StringBytes);
      Assoc(old(data), List32Bytes(b.kills, KillBytes) + List32Bytes(b.sights, StringBytes),
            List32Bytes(b.chats, StringBytes));
    }

    /** A creative power (src/write.rs:511-527): its u16 tag, then a bool
        or the bits of an f32. */
    method Power(power: CreativePower)
      modifies this
      ensures data == old(data) + PowerBytes(power)
    {
      U16(PowerTag(power));
      match power
      case FreezeTime(on) => Bool(on);
      case FreezeWeather(on) => Bool(on);
      case FreezeWind(on) => Bool(on);
      case FreezeSpread(on) => Bool(on);
      case TimeRate(rate) => U32(rate);
      case DifficultySlider(level) => U32(level);
    }

    /** The creative powers (src/write.rs:510-529): `true` before each
        power, `false` after the last. */
    method Powers(powers: seq<CreativePower>)
      modifies this
      ensures data == old(data) + PowersBytes(powers)
    {
      var i := 0;
      while i < |powers|
        invariant 0 <= i <= |powers|
        invariant old(data) + SentinelBytes(powers, PowerBytes) == data + SentinelBytes(powers[i..], PowerBytes)
      {
        assert powers[i..] == [powers[i]] + powers[i + 1..];
        SentinelStep(old(data) + SentinelBytes(powers, PowerBytes), data, powers[i], powers[i + 1..], PowerBytes);
        Bool(true);
        Power(powers[i]);
        i := i + 1;
      }
      assert powers[i..] == [];
      Bool(false);
    }

    /** The trailer (src/write.rs:533-535): `true`, the name and the id. */
    method Trailer(name: Bytes, id: u32)
      modifies this
      ensures data == old(data) + TrailerBytes(name, id)
    {
      Bool(true);
      String(name);
      U32(id);
    }

    /** The prefix (src/write.rs:42-46): version, the seven bytes of the
        magic number, file type, revision and favourite flag. */
    method Prefix(p: Prefix)
      requires ValidPrefix(p)
      modifies this
      ensures data == old(data) + PrefixBytes(p)
    {
      U32(p.version);
      var i := 0;
      while i < |p.magic|
        invariant 0 <= i <= |p.magic|
        invariant data == old(data) + U32Bytes(p.version) + p.magic[..i]
      {
        assert p.magic[..i + 1] == p.magic[..i] + [p.magic[i]];
        U8(p.magic[i]);
        i := i + 1;
      }
      assert p.magic[..i] == p.magic;
      U8(p.fileType);
      U32(p.revision);
      U64(p.favorite);
    }

    /** `w.u16(11); for _ in 0..11 { w.u32(0) }` (src/write.rs:47-48): an
        offsets table of zeros, to be back-patched by `mark`. */
    method Reserve()
      modifies this
      ensures data == old(data) + List16Bytes(Zeros(Checkpoints), U32Bytes)
    {
      assert |Zeros(Checkpoints)| % 0x1_0000 == Checkpoints;
      U16(Checkpoints);
      Items(Zeros(Checkpoints), U32Bytes);
      Assoc(old(data), U16Bytes(Checkpoints), ManyBytes(Zeros(Checkpoints), U32Bytes));
    }

    /** `mark(k)` once part `k` is written: the draft now has that part
        done. */
    method MarkPart(k: nat, ghost prefix: Bytes, ghost done: seq<Bytes>, ghost part: Bytes)
      requires k == |done| < Checkpoints && |prefix| == 24
      requires data == Draft(prefix, done) + part
      modifies this
      ensures data == Draft(prefix, done + [part])
    {
      MarkStep(prefix, done, part);
      Mark(k);
    }

    /** The importance table, the header and the tile plane, each followed
        by its `mark` (src/write.rs:49-350). */
    method Terrain(importance: seq<bool>, h: seq<Value>, tiles: seq<Tile>, ghost prefix: Bytes)
      requires |prefix| == 24 && data == Draft(prefix, [])
      requires WellFormedHeader(h) && HasFields(h)
      requires Width(h) * Height(h) < 0x1_0000_0000 && PlaneCovered(tiles, Width(h), Height(h), importance)
      modifies this
      ensures data == Draft(prefix, TerrainSections(importance, h, tiles))
    {
      ghost var parts := TerrainSections(importance, h, tiles);
      ghost var none: seq<Bytes> := [];
      Importance(importance);
      MarkPart(0, prefix, none, parts[0]);
      Header(h);
      MarkPart(1, prefix, none + [parts[0]], parts[1]);
      Plane(tiles, Width(h), Height(h), importance);
      MarkPart(2, prefix, none + [parts[0]] + [parts[1]], parts[2]);
      assert none + [parts[0]] + [parts[1]] + [parts[2]] == parts;
    }

    /** Chests, signs and NPCs, each followed by its `mark`
        (src/write.rs:355-422). */
    method Holdings(chests: seq<Chest>, signs: seq<Sign>, npcs: seq<Npc>, ghost prefix: Bytes, ghost done: seq<Bytes>)
      requires |prefix| == 24 && |done| == 3 && data == Draft(prefix, done)
      modifies this
      ensures data == Draft(prefix, done + HoldingsSections(chests, signs, npcs))
    {
      ghost var parts := HoldingsSections(chests, signs, npcs);
      Chests(chests);
      MarkPart(3, prefix, done, parts[0]);
      Signs(signs);
      MarkPart(4, prefix, done + [parts[0]], parts[1]);
      Npcs(npcs);
      MarkPart(5, prefix, done + [parts[0]] + [parts[1]], parts[2]);
      assert done + [parts[0]] + [parts[1]] + [parts[2]] == done + parts;
    }

    /** Tile entities, pressure plates and NPC rooms, each followed by its
        `mark` (src/write.rs:427-492). */
    method Fixtures(entities: seq<TileEntity>, plates: seq<(u32, u32)>, rooms: seq<NpcRoom>,
                    ghost prefix: Bytes, ghost done: seq<Bytes>)
      requires |prefix| == 24 && |done| == 6 && data == Draft(prefix, done)
      modifies this
      ensures data == Draft(prefix, done + FixturesSections(entities, plates, rooms))
    {
      ghost var parts := FixturesSections(entities, plates, rooms);
      Entities(entities);
      MarkPart(6, prefix, done, parts[0]);
      Plates(plates);
      MarkPart(7, prefix, done + [parts[0]], parts[1]);
      Rooms(rooms);
      MarkPart(8, prefix, done + [parts[0]] + [parts[1]], parts[2]);
      assert done + [parts[0]] + [parts[1]] + [parts[2]] == done + parts;
    }

    /** The bestiary and the creative powers, each followed by its `mark`
        (src/write.rs:494-531). */
    method Journal(bestiary: Bestiary, powers: seq<CreativePower>, ghost prefix: Bytes, ghost done: seq<Bytes>)
      requires |prefix| == 24 && |done| == 9 && data == Draft(prefix, done)
      modifies this
      ensures data == Draft(prefix, done + JournalSections(bestiary, powers))
    {
      ghost var parts := JournalSections(bestiary, powers);
      Bestiary(bestiary);
      MarkPart(9, prefix, done, parts[0]);
      Powers(powers);
      MarkPart(10, prefix, done + [parts[0]], parts[1]);
      assert done + [parts[0]] + [parts[1]] == done + parts;
    }
}

  /** `write` (src/write.rs:32-539): the prefix, a zeroed offsets table,
      then each part followed by `mark`, which back-patches its slot, and
      the trailer.  The output is the file `WorldBytes` describes.  The
      plane loop bound is a u32 product that must not overflow; the
      messages printed along the way are not modelled. */
  method Write(wld: Wld) returns (bytes: Bytes)
    requires wld.Valid() && Writable(wld.Snapshot())
    requires Width(wld.header) * Height(wld.header) < 0x1_0000_0000
    ensures bytes == WorldBytes(wld.Snapshot())
  {
    bytes := Encode(wld.Snapshot());
  }

  /** The body of `write`, over the world as a value. */
  method Encode(world: World) returns (bytes: Bytes)
    requires Writable(world) && Width(world.header) * Height(world.header) < 0x1_0000_0000
    ensures bytes == WorldBytes(world)
  {
    var h := world.header;
    var w := new Writer();
    w.Prefix(world.prefix);
    ghost var prefix := w.data;
    w.Reserve();
    Started(prefix);
    w.Terrain(world.importance, h, world.tiles, prefix);
    ghost var done := TerrainSections(world.importance, h, world.tiles);
    w.Holdings(world.chests, world.signs, world.npcs, prefix, done);
    done := done + HoldingsSections(world.chests, world.signs, world.npcs);
    w.Fixtures(world.entities, world.plates, world.rooms, prefix, done);
    done := done + FixturesSections(world.entities, world.plates, world.rooms);
    w.Journal(world.bestiary, world.powers, prefix, done);
    done := done + JournalSections(world.bestiary, world.powers);
    w.Trailer(Name(h), Id(h));
    bytes := w.data;
    Finished(world, prefix);
  }
}
