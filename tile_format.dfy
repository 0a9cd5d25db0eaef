/** One record of the tile plane: a tile and the number `k` of further
    cells of its column that repeat it.

    On the wire a record is a flag byte `a`, an optional second flag byte
    `b` (present iff `a & 1`), an optional third `c` (present iff `b & 1`),
    then the block id, the block's sub-tile anchor, the block paint, the
    wall id, the wall paint, the liquid amount and the repeat count, each
    only when the flags call for it (decoded at src/read.rs:282-361,
    encoded at src/write.rs:263-347). */
module TileFormat {
  import opened Structs
  import opened Wire
  import Arith

  /** A decoded record: `count + 1` consecutive cells hold `tile`. */
  datatype Run = Run(tile: Tile, count: u16)

  /** `x & m == m` */
  predicate Has(x: byte, m: byte) { x & m == m }

  // ---------------------------------------------------------------------
  // Decoder (src/read.rs:283-361)
  // ---------------------------------------------------------------------

  /** The 3-bit slope code in bits 4..6 of `b`; the unused codes 6 and 7
      decode as `Full`. */
  function SlopeOf(b: byte): Slope
  {
    match (b >> 4) & 7
    case 1 => Half
    case 2 => LowerLeft
    case 3 => LowerRight
    case 4 => UpperLeft
    case 5 => UpperRight
    case _ => Full
  }

  /** An optional byte, read when `present`. */
  function ReadOptByte(s: Bytes, present: bool): Result<Parsed<Option<byte>>>
  {
    if !present then Ok(Parsed(None, s))
    else
      var n :- ReadU8(s);
      Ok(Parsed(Some(n.value), n.rest))
  }

  /** An optional anchor, two u16s, read when `present`. */
  function ReadOptUV(s: Bytes, present: bool): Result<Parsed<Option<(u16, u16)>>>
  {
    if !present then Ok(Parsed(None, s))
    else
      var u :- ReadU16(s);
      var v :- ReadU16(u.rest);
      Ok(Parsed(Some((u.value, v.value)), v.rest))
  }

  /** A 16-bit id when `wide`, else one byte widened. */
  function ReadId(s: Bytes, wide: bool): Result<Parsed<u16>>
  {
    if wide then ReadU16(s) else ReadU8AsU16(s)
  }

  /** The block, when `a & 2`.  Its anchor is read exactly when the
      importance table flags its id; an id past the table's end is the
      source's out-of-range index. */
  function ReadBlock(s: Bytes, a: byte, b: byte, c: byte, importance: seq<bool>): Result<Parsed<Option<Block>>>
  {
    if !Has(a, 2) then Ok(Parsed(None, s))
    else
      var id :- ReadId(s, Has(a, 32));
      if id.value >= |importance| then Err(ImportanceIndex(id.value))
      else
        var uv :- ReadOptUV(id.rest, importance[id.value]);
        var color :- ReadOptByte(uv.rest, Has(c, 8));
        Ok(Parsed(Some(Block(id.value, color.value, uv.value, Has(c, 4), SlopeOf(b))), color.rest))
  }

  /** The wall, when `a & 4`; its id is 16 bits when `c & 64`. */
  function ReadWall(s: Bytes, a: byte, c: byte): Result<Parsed<Option<Wall>>>
  {
    if !Has(a, 4) then Ok(Parsed(None, s))
    else
      var id :- ReadId(s, Has(c, 64));
      var color :- ReadOptByte(id.rest, Has(c, 16));
      Ok(Parsed(Some(Wall(id.value, color.value)), color.rest))
  }

  /** The liquid kind from bits 3..4 of `a`, overridden by `c & 128`. */
  function LiquidOf(a: byte, c: byte): LiquidType
  {
    if Has(c, 128) then Shimmer
    else match (a >> 3) & 3
      case 2 => Lava
      case 3 => Honey
      case _ => Water
  }

  /** The liquid, when bits 3..4 of `a` are not both clear. */
  function ReadLiquid(s: Bytes, a: byte, c: byte): Result<Parsed<Option<Liquid>>>
  {
    if (a >> 3) & 3 == 0 then Ok(Parsed(None, s))
    else
      var amount :- ReadU8(s);
      Ok(Parsed(Some(Liquid(LiquidOf(a, c), amount.value)), amount.rest))
  }

  /** The repeat count: a u16 when `a & 128`, else a byte when `a & 64`,
      else 0. */
  function ReadRunCount(s: Bytes, a: byte): Result<Parsed<u16>>
  {
    if Has(a, 128) then ReadU16(s)
    else if Has(a, 64) then ReadU8AsU16(s)
    else Ok(Parsed(0, s))
  }

  /** The flag bytes `a`, `b`, `c`; an absent byte counts as 0. */
  function ReadFlagChain(s: Bytes): Result<Parsed<(byte, byte, byte)>>
  {
    var a :- ReadU8(s);
    var b :- if Has(a.value, 1) then ReadU8(a.rest) else Ok(Parsed(0, a.rest));
    var c :- if Has(b.value, 1) then ReadU8(b.rest) else Ok(Parsed(0, b.rest));
    Ok(Parsed((a.value, b.value, c.value), c.rest))
  }

  /** The fields that follow the flag bytes, in wire order. */
  function ReadFields(s: Bytes, a: byte, b: byte, c: byte, importance: seq<bool>): Result<Parsed<Run>>
  {
    var block :- ReadBlock(s, a, b, c, importance);
    var wall :- ReadWall(block.rest, a, c);
    var liquid :- ReadLiquid(wall.rest, a, c);
    var k :- ReadRunCount(liquid.rest, a);
    var tile := Tile(block.value, wall.value, liquid.value,
                     Has(b, 2), Has(b, 4), Has(b, 8), Has(c, 32), Has(c, 2));
    Ok(Parsed(Run(tile, k.value), k.rest))
  }

  /** One record: the flag chain, the reserved-bit check, then the fields. */
  function ReadRecord(s: Bytes, importance: seq<bool>): Result<Parsed<Run>>
  {
    var flags :- ReadFlagChain(s);
    var (a, b, c) := flags.value;
    if Has(c, 1) || Has(b, 128) then Err(ReservedBit)
    else ReadFields(flags.rest, a, b, c, importance)
  }

  // ---------------------------------------------------------------------
  // Encoder (src/write.rs:263-347)
  // ---------------------------------------------------------------------

  function SlopeCode(s: Slope): byte
  {
    match s
    case Full => 0
    case Half => 1
    case LowerLeft => 2
    case LowerRight => 3
    case UpperLeft => 4
    case UpperRight => 5
  }

  /** Shimmer shares water's code; the third flag byte tells them apart. */
  function LiquidCode(kind: LiquidType): byte
  {
    match kind
    case Water => 1
    case Lava => 2
    case Honey => 3
    case Shimmer => 1
  }

  /** Whether the importance table covers every id the tile mentions
      (the encoder indexes it with the block id). */
  predicate Covered(t: Tile, importance: seq<bool>)
  {
    t.block.Some? ==> t.block.value.id < |importance|
  }

  /** Whether the tile sets any bit of the third flag byte. */
  predicate NeedsC(t: Tile)
  {
    || (t.block.Some? && (t.block.value.color.Some? || t.block.value.inactive))
    || (t.wall.Some? && (t.wall.value.id >= 256 || t.wall.value.color.Some?))
    || (t.liquid.Some? && t.liquid.value.kind == Shimmer)
    || t.yellowWire || t.actuator
  }

  /** Whether the tile sets any bit of the second flag byte. */
  predicate NeedsB(t: Tile)
  {
    || (t.block.Some? && t.block.value.slope != Full)
    || t.redWire || t.greenWire || t.blueWire
    || NeedsC(t)
  }

  /** Third flag byte: block paint and inactivity, a wide wall id, wall
      paint, shimmer, yellow wire, actuator. */
  function FlagC(t: Tile): byte
  {
    (if t.block.Some? && t.block.value.color.Some? then 8 else 0)
    + (if t.block.Some? && t.block.value.inactive then 4 else 0)
    + (if t.wall.Some? && t.wall.value.id >= 256 then 64 else 0)
    + (if t.wall.Some? && t.wall.value.color.Some? then 16 else 0)
    + (if t.liquid.Some? && t.liquid.value.kind == Shimmer then 128 else 0)
    + (if t.yellowWire then 32 else 0)
    + (if t.actuator then 2 else 0)
  }

  /** Second flag byte: the slope code, the red, green and blue wires, and
      bit 0 when a third byte follows. */
  function FlagB(t: Tile): byte
  {
    (if t.block.Some? then SlopeCode(t.block.value.slope) << 4 else 0)
    + (if t.redWire then 2 else 0)
    + (if t.greenWire then 4 else 0)
    + (if t.blueWire then 8 else 0)
    + (if NeedsC(t) then 1 else 0)
  }

  /** First flag byte: block, wide block id, wall, liquid code, the width
      of the repeat count (64 once for a byte, 64 twice for a u16), and bit
      0 when a second byte follows. */
  function FlagA(t: Tile, k: nat): byte
  {
    (if t.block.Some? then 2 else 0)
    + (if t.block.Some? && t.block.value.id >= 256 then 32 else 0)
    + (if t.wall.Some? then 4 else 0)
    + (if t.liquid.Some? then LiquidCode(t.liquid.value.kind) << 3 else 0)
    + (if k > 0 then 64 else 0)
    + (if k >= 256 then 64 else 0)
    + (if NeedsB(t) then 1 else 0)
  }

  /** The flag bytes: `a`, then `b` and `c` only when non-zero. */
  function FlagBytes(t: Tile, k: nat): Bytes
  {
    [FlagA(t, k)]
    + (if NeedsB(t) then [FlagB(t)] else [])
    + (if NeedsC(t) then [FlagC(t)] else [])
  }

  /** An id as the encoder writes it: the low byte, and the high byte only
      when the id is 256 or more. */
  function IdBytes(id: u16): Bytes
  {
    [(id % 256) as byte] + (if id >= 256 then [(id / 256) as byte] else [])
  }

  function OptByteBytes(n: Option<byte>): Bytes
  {
    if n.Some? then [n.value] else []
  }

  /** The block's id, its anchor whenever the importance table flags the
      id (a missing anchor is written as (0, 0)), and its paint. */
  function BlockBytes(block: Option<Block>, importance: seq<bool>): Bytes
    requires block.Some? ==> block.value.id < |importance|
  {
    if block.None? then []
    else
      var bl := block.value;
      var (u, v) := if bl.uv.Some? then bl.uv.value else (0, 0);
      IdBytes(bl.id)
      + (if importance[bl.id] then U16Bytes(u) + U16Bytes(v) else [])
      + OptByteBytes(bl.color)
  }

  function WallBytes(wall: Option<Wall>): Bytes
  {
    if wall.None? then [] else IdBytes(wall.value.id) + OptByteBytes(wall.value.color)
  }

  function LiquidBytes(liquid: Option<Liquid>): Bytes
  {
    if liquid.None? then [] else [liquid.value.amount]
  }

  /** The repeat count `k as u8`, then `(k >> 8) as u8` when `k >= 256`. */
  function CountBytes(k: nat): Bytes
  {
    if k == 0 then []
    else [(k % 0x100) as byte] + (if k >= 256 then [((k / 0x100) % 0x100) as byte] else [])
  }

  /** The bytes after the flags, in wire order. */
  function FieldBytes(t: Tile, k: nat, importance: seq<bool>): Bytes
    requires Covered(t, importance)
  {
    BlockBytes(t.block, importance) + WallBytes(t.wall) + LiquidBytes(t.liquid) + CountBytes(k)
  }

  /** Everything the encoder emits for a tile repeated in `k` further cells. */
  function RecordBytes(t: Tile, k: nat, importance: seq<bool>): Bytes
    requires Covered(t, importance)
  {
    FlagBytes(t, k) + FieldBytes(t, k, importance)
  }

  /** The tile the decoder rebuilds: identical except that a block carries
      an anchor exactly when its id is flagged, (0, 0) if it had none. */
  function Normalize(t: Tile, importance: seq<bool>): Tile
    requires Covered(t, importance)
  {
    if t.block.None? then t
    else
      var bl := t.block.value;
      var uv := if !importance[bl.id] then None
                else if bl.uv.Some? then bl.uv
                else Some((0, 0));
      t.(block := Some(bl.(uv := uv)))
  }

  /** Whether the tile already has the shape the decoder produces. */
  predicate Canonical(t: Tile, importance: seq<bool>)
  {
    Covered(t, importance) &&
    (t.block.Some? ==> (t.block.value.uv.Some? <==> importance[t.block.value.id]))
  }

  // ---------------------------------------------------------------------
  // Lemmas
  // ---------------------------------------------------------------------

  /** Normalizing changes nothing on a canonical tile and always yields one. */
  lemma NormalizeCanonical(t: Tile, importance: seq<bool>)
    requires Covered(t, importance)
    ensures Canonical(Normalize(t, importance), importance)
    ensures Canonical(t, importance) ==> Normalize(t, importance) == t
  {
  }

  /** What the decoder needs to know of flag bytes `a`, `b`, `c` to
      rebuild tile `t` repeated `k` more times. */
  predicate Describes(t: Tile, k: nat, a: byte, b: byte, c: byte)
  {
    && !Has(c, 1) && !Has(b, 128)
    && Has(a, 1) == (b > 0) && Has(b, 1) == (c > 0)
    && Has(a, 2) == t.block.Some?
    && (t.block.Some? ==>
          && Has(a, 32) == (t.block.value.id >= 256)
          && Has(c, 8) == t.block.value.color.Some?
          && Has(c, 4) == t.block.value.inactive
          && SlopeOf(b) == t.block.value.slope)
    && Has(a, 4) == t.wall.Some?
    && (t.wall.Some? ==>
          && Has(c, 64) == (t.wall.value.id >= 256)
          && Has(c, 16) == t.wall.value.color.Some?)
    && ((a >> 3) & 3 == 0) == t.liquid.None?
    && (t.liquid.Some? ==> LiquidOf(a, c) == t.liquid.value.kind)
    && Has(a, 128) == (k >= 256)
    && Has(a, 64) == (0 < k < 256)
    && Has(b, 2) == t.redWire && Has(b, 4) == t.greenWire && Has(b, 8) == t.blueWire
    && Has(c, 32) == t.yellowWire && Has(c, 2) == t.actuator
  }

  /** The flag bytes the encoder derives say exactly what the decoder
      reads from them, and leave the reserved bits clear. */
  lemma FlagsDescribe(t: Tile, k: nat)
    ensures Describes(t, k, FlagA(t, k), FlagB(t), FlagC(t))
  {
    FlagCBits(t);
    FlagBBits(t);
    FlagABits(t, k);
    FlagCNonZero(t);
    FlagBNonZero(t);
    if t.block.Some? {
      BlockFlagBits(t, k);
    }
    if t.wall.Some? {
      WallFlagBits(t);
    }
    if t.liquid.Some? {
      LiquidFlagBits(t, k);
    }
  }

  lemma FlagCBits(t: Tile)
    ensures var c := FlagC(t);
      !Has(c, 1) && Has(c, 32) == t.yellowWire && Has(c, 2) == t.actuator
  {
  }

  lemma FlagBBits(t: Tile)
    ensures var b := FlagB(t);
      && !Has(b, 128) && Has(b, 1) == NeedsC(t)
      && Has(b, 2) == t.redWire && Has(b, 4) == t.greenWire && Has(b, 8) == t.blueWire
  {
  }

  lemma FlagABits(t: Tile, k: nat)
    ensures var a := FlagA(t, k);
      && Has(a, 1) == NeedsB(t) && Has(a, 2) == t.block.Some? && Has(a, 4) == t.wall.Some?
      && Has(a, 128) == (k >= 256) && Has(a, 64) == (0 < k < 256)
      && ((a >> 3) & 3 == 0) == t.liquid.None?
  {
  }

  lemma BlockFlagBits(t: Tile, k: nat)
    requires t.block.Some?
    ensures var a, b, c, bl := FlagA(t, k), FlagB(t), FlagC(t), t.block.value;
      && Has(a, 32) == (bl.id >= 256)
      && Has(c, 8) == bl.color.Some?
      && Has(c, 4) == bl.inactive
      && SlopeOf(b) == bl.slope
  {
  }

  lemma WallFlagBits(t: Tile)
    requires t.wall.Some?
    ensures Has(FlagC(t), 64) == (t.wall.value.id >= 256)
    ensures Has(FlagC(t), 16) == t.wall.value.color.Some?
  {
  }

  lemma LiquidFlagBits(t: Tile, k: nat)
    requires t.liquid.Some?
    ensures LiquidOf(FlagA(t, k), FlagC(t)) == t.liquid.value.kind
  {
  }

  /** The encoder's `c > 0` test: the third byte is non-zero exactly when
      the tile needs one. */
  lemma FlagCNonZero(t: Tile)
    ensures FlagC(t) > 0 <==> NeedsC(t)
  {
  }

  /** The encoder's `b > 0` test, likewise for the second byte. */
  lemma FlagBNonZero(t: Tile)
    ensures FlagB(t) > 0 <==> NeedsB(t)
  {
  }

  /** The flag bytes come back from the decoder's chained reads. */
  lemma FlagChainRoundTrip(t: Tile, k: nat, rest: Bytes)
    ensures ReadFlagChain(FlagBytes(t, k) + rest) == Ok(Parsed((FlagA(t, k), FlagB(t), FlagC(t)), rest))
  {
    var a, b, c := FlagA(t, k), FlagB(t), FlagC(t);
    FlagsDescribe(t, k);
    FlagCNonZero(t);
    FlagBNonZero(t);
    assert FlagBytes(t, k) == [a] + (if b > 0 then [b] else []) + (if c > 0 then [c] else []);
    ChainOf(a, b, c, rest);
  }

  /** A first byte, a second byte when the first has bit 0 set and a third
      when the second has: the chain the encoder writes, with absent bytes
      zero, reads back. */
  lemma ChainOf(a: byte, b: byte, c: byte, rest: Bytes)
    requires Has(a, 1) == (b > 0) && Has(b, 1) == (c > 0)
    ensures ReadFlagChain([a] + (if b > 0 then [b] else []) + (if c > 0 then [c] else []) + rest)
            == Ok(Parsed((a, b, c), rest))
  {
    var tail := (if c > 0 then [c] else []) + rest;
    var s := [a] + (if b > 0 then [b] else []) + (if c > 0 then [c] else []) + rest;
    assert s == [a] + ((if b > 0 then [b] else []) + tail);
    assert s[1..] == (if b > 0 then [b] else []) + tail;
    if c > 0 {
      assert tail[1..] == rest;
    }
  }

  lemma IdRoundTrip(id: u16, wide: bool, rest: Bytes)
    requires wide == (id >= 256)
    ensures ReadId(IdBytes(id) + rest, wide) == Ok(Parsed(id, rest))
  {
    var s := IdBytes(id) + rest;
    if wide {
      Arith.DivModUnique(id / 256, 256, 0, id / 256);
      assert LeBytes(id / 256, 1) == [((id / 256) % 256) as byte] + LeBytes(id / 256 / 256, 0);
      assert IdBytes(id) == U16Bytes(id);
      U16RoundTrip(id, rest);
    } else {
      Arith.ByteValue(id);
      assert s[1..] == rest;
    }
  }

  lemma OptByteRoundTrip(n: Option<byte>, rest: Bytes)
    ensures ReadOptByte(OptByteBytes(n) + rest, n.Some?) == Ok(Parsed(n, rest))
  {
    if n.Some? {
      assert (OptByteBytes(n) + rest)[1..] == rest;
    } else {
      assert OptByteBytes(n) + rest == rest;
    }
  }

  lemma UVRoundTrip(u: u16, v: u16, rest: Bytes)
    ensures ReadOptUV(U16Bytes(u) + U16Bytes(v) + rest, true) == Ok(Parsed(Some((u, v)), rest))
  {
    assert U16Bytes(u) + U16Bytes(v) + rest == U16Bytes(u) + (U16Bytes(v) + rest);
    U16RoundTrip(u, U16Bytes(v) + rest);
    U16RoundTrip(v, rest);
  }

  lemma BlockRoundTrip(t: Tile, k: nat, a: byte, b: byte, c: byte, importance: seq<bool>, rest: Bytes)
    requires Covered(t, importance) && Describes(t, k, a, b, c)
    ensures ReadBlock(BlockBytes(t.block, importance) + rest, a, b, c, importance)
         == Ok(Parsed(Normalize(t, importance).block, rest))
  {
    if t.block.Some? {
      var bl := t.block.value;
      var norm := Normalize(t, importance).block.value;
      var (u, v) := if bl.uv.Some? then bl.uv.value else (0, 0);
      var afterUV := OptByteBytes(bl.color) + rest;
      var afterId := (if importance[bl.id] then U16Bytes(u) + U16Bytes(v) else []) + afterUV;
      BlockBytesSplit(bl, importance, rest);
      IdRoundTrip(bl.id, bl.id >= 256, afterId);
      assert ReadOptUV(afterId, importance[bl.id]) == Ok(Parsed(norm.uv, afterUV)) by {
        if importance[bl.id] {
          UVRoundTrip(u, v, afterUV);
        } else {
          assert afterId == afterUV;
        }
      }
      OptByteRoundTrip(bl.color, rest);
      ReadBlockSteps(norm, a, b, c, importance, rest, afterId, afterUV);
    } else {
      assert BlockBytes(t.block, importance) + rest == rest;
    }
  }

  lemma BlockBytesSplit(bl: Block, importance: seq<bool>, rest: Bytes)
    requires bl.id < |importance|
    ensures var (u, v) := if bl.uv.Some? then bl.uv.value else (0, 0);
      BlockBytes(Some(bl), importance) + rest
      == IdBytes(bl.id) + ((if importance[bl.id] then U16Bytes(u) + U16Bytes(v) else [])
                           + (OptByteBytes(bl.color) + rest))
  {
  }

  /** `ReadBlock` assembled from its three reads. */
  lemma ReadBlockSteps(bl: Block, a: byte, b: byte, c: byte, importance: seq<bool>, rest: Bytes, afterId: Bytes, afterUV: Bytes)
    requires bl.id < |importance| && Has(a, 2)
    requires Has(c, 4) == bl.inactive && SlopeOf(b) == bl.slope
    requires ReadId(IdBytes(bl.id) + afterId, Has(a, 32)) == Ok(Parsed(bl.id, afterId))
    requires ReadOptUV(afterId, importance[bl.id]) == Ok(Parsed(bl.uv, afterUV))
    requires ReadOptByte(afterUV, Has(c, 8)) == Ok(Parsed(bl.color, rest))
    ensures ReadBlock(IdBytes(bl.id) + afterId, a, b, c, importance) == Ok(Parsed(Some(bl), rest))
  {
  }

  lemma WallRoundTrip(t: Tile, k: nat, a: byte, b: byte, c: byte, rest: Bytes)
    requires Describes(t, k, a, b, c)
    ensures ReadWall(WallBytes(t.wall) + rest, a, c) == Ok(Parsed(t.wall, rest))
  {
    if t.wall.Some? {
      var w := t.wall.value;
      assert WallBytes(t.wall) + rest == IdBytes(w.id) + (OptByteBytes(w.color) + rest);
      IdRoundTrip(w.id, w.id >= 256, OptByteBytes(w.color) + rest);
      OptByteRoundTrip(w.color, rest);
    } else {
      assert WallBytes(t.wall) + rest == rest;
    }
  }

  lemma LiquidRoundTrip(t: Tile, k: nat, a: byte, b: byte, c: byte, rest: Bytes)
    requires Describes(t, k, a, b, c)
    ensures ReadLiquid(LiquidBytes(t.liquid) + rest, a, c) == Ok(Parsed(t.liquid, rest))
  {
    if t.liquid.Some? {
      assert (LiquidBytes(t.liquid) + rest)[1..] == rest;
    } else {
      assert LiquidBytes(t.liquid) + rest == rest;
    }
  }

  /** The repeat count comes back modulo 2^16: a count of 65536 or more
      still sets the u16 flag but only its low 16 bits are written. */
  lemma CountRoundTrip(t: Tile, k: nat, a: byte, b: byte, c: byte, rest: Bytes)
    requires Describes(t, k, a, b, c)
    ensures ReadRunCount(CountBytes(k) + rest, a) == Ok(Parsed(k % 0x1_0000, rest))
  {
    if k >= 256 {
      WideCount(k, rest);
    } else if k > 0 {
      NarrowCount(k, rest);
    } else {
      assert CountBytes(k) + rest == rest;
    }
  }

  lemma WideCount(k: nat, rest: Bytes)
    requires k >= 256
    ensures ReadU16(CountBytes(k) + rest) == Ok(Parsed(k % 0x1_0000, rest))
  {
    var s := CountBytes(k) + rest;
    var lo, hi := (k % 0x100) as byte, ((k / 0x100) % 0x100) as byte;
    assert s[..2] == [lo, hi] && s[2..] == rest;
    Arith.ByteValue(k % 0x100);
    Arith.ByteValue((k / 0x100) % 0x100);
    Arith.Split16(k);
    assert LittleEndian([lo, hi]) == k % 0x1_0000 by {
      assert [lo, hi][1..] == [hi];
      assert [hi][1..] == [];
    }
  }

  lemma NarrowCount(k: nat, rest: Bytes)
    requires 0 < k < 256
    ensures ReadU8AsU16(CountBytes(k) + rest) == Ok(Parsed(k % 0x1_0000, rest))
  {
    var s := CountBytes(k) + rest;
    assert s[0] == (k % 0x100) as byte && s[1..] == rest;
    Arith.ByteValue(k);
  }

  lemma FieldsRoundTrip(t: Tile, k: nat, count: u16, a: byte, b: byte, c: byte, importance: seq<bool>, rest: Bytes)
    requires Covered(t, importance) && Describes(t, k, a, b, c) && count == k % 0x1_0000
    ensures ReadFields(FieldBytes(t, k, importance) + rest, a, b, c, importance)
         == Ok(Parsed(Run(Normalize(t, importance), count), rest))
  {
    var afterLiquid := CountBytes(k) + rest;
    var afterWall := LiquidBytes(t.liquid) + afterLiquid;
    var afterBlock := WallBytes(t.wall) + afterWall;
    FieldBytesSplit(t, k, importance, rest);
    BlockRoundTrip(t, k, a, b, c, importance, afterBlock);
    WallRoundTrip(t, k, a, b, c, afterWall);
    LiquidRoundTrip(t, k, a, b, c, afterLiquid);
    CountRoundTrip(t, k, a, b, c, rest);
    ReadFieldsSteps(Normalize(t, importance), count, a, b, c, importance,
                    FieldBytes(t, k, importance) + rest, afterBlock, afterWall, afterLiquid, rest);
  }

  lemma FieldBytesSplit(t: Tile, k: nat, importance: seq<bool>, rest: Bytes)
    requires Covered(t, importance)
    ensures FieldBytes(t, k, importance) + rest
         == BlockBytes(t.block, importance) + (WallBytes(t.wall) + (LiquidBytes(t.liquid) + (CountBytes(k) + rest)))
  {
  }

  /** `ReadFields` assembled from its four reads. */
  lemma ReadFieldsSteps(t: Tile, k: u16, a: byte, b: byte, c: byte, importance: seq<bool>,
                        s: Bytes, afterBlock: Bytes, afterWall: Bytes, afterLiquid: Bytes, rest: Bytes)
    requires ReadBlock(s, a, b, c, importance) == Ok(Parsed(t.block, afterBlock))
    requires ReadWall(afterBlock, a, c) == Ok(Parsed(t.wall, afterWall))
    requires ReadLiquid(afterWall, a, c) == Ok(Parsed(t.liquid, afterLiquid))
    requires ReadRunCount(afterLiquid, a) == Ok(Parsed(k, rest))
    requires Has(b, 2) == t.redWire && Has(b, 4) == t.greenWire && Has(b, 8) == t.blueWire
    requires Has(c, 32) == t.yellowWire && Has(c, 2) == t.actuator
    ensures ReadFields(s, a, b, c, importance) == Ok(Parsed(Run(t, k), rest))
  {
  }

  /** The decoder reads back the record the encoder wrote: the normalized
      tile, and the repeat count modulo 2^16. */
  lemma RecordRoundTrip(t: Tile, k: nat, count: u16, importance: seq<bool>, rest: Bytes)
    requires Covered(t, importance) && count == k % 0x1_0000
    ensures ReadRecord(RecordBytes(t, k, importance) + rest, importance)
         == Ok(Parsed(Run(Normalize(t, importance), count), rest))
  {
    var afterFlags := FieldBytes(t, k, importance) + rest;
    assert RecordBytes(t, k, importance) + rest == FlagBytes(t, k) + afterFlags;
    FlagChainRoundTrip(t, k, afterFlags);
    FlagsDescribe(t, k);
    FieldsRoundTrip(t, k, count, FlagA(t, k), FlagB(t), FlagC(t), importance, rest);
  }
}
