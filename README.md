# wld codec model

This project is a Dafny model of the codec at the heart of `wld_edit`, an
editor for Terraria world files (`.wld`). It covers four pieces of the codec:

- The decoder `read` and its byte cursor `Reader`, in `src/read.rs`.
- The encoder `write` and its byte buffer `Writer`, in `src/write.rs`.
- The world record `Wld` with its constructor `_new` and its `set_block` editor, in `src/wld.rs`.
- The value types in `src/structs.rs`.

A world file is laid out in this order:

1. A 24-byte prefix.
2. A table of eleven section offsets.
3. The sections themselves: the tile-importance bit table, the header, the tile plane, chests, signs, NPCs, tile entities, pressure plates, NPC rooms, the bestiary and the creative powers.
4. A trailer that repeats the world's name and id.

The decoder checks each section boundary against the offsets table. The
encoder reserves the table, writes each section, and then back-patches the
offset where that section ends (the next one's start) into the table with
`mark`.

The model has two layers:

- **Format modules** describe every section as a pair of pure functions:
  - a decoder `ReadX : bytes -> Result<Parsed<X>>`, with the same branches, error cases and constants as `read.rs`;
  - an encoder `XBytes : X -> bytes`, written the way `write.rs` builds the section.
  
  The format modules are `Wire`, `Importance`, `TileFormat`, `PlaneFormat`, `HeaderFormat`, `ChestFormat`, `NpcFormat`, `EntityFormat`, `MiscFormat` and `WorldFormat`.
- **Imperative modules** keep the source's own form:
  - `Reading.Reader` is a class over the unread bytes. Its methods pop bytes, and each is proved to produce exactly what the matching decoder function produces, or to fail with the same error.
  - The decoding itself is split into `TerrainReading`, `HoldingsReading`, `FixturesReading` and `WorldReading`.
  - `Writing.Writer` is a class over the output buffer. Each method is proved to append exactly the matching encoder's bytes. `Mark` overwrites one table slot and nothing else.
  - `WorldState.Wld` is the world class. Its tiles point into an interning pool, `TilePool.Pool`.

The main results:

- **Whole-file decoding.** `WorldFormat.WorldDecode` says what decoding the encoder's output gives, for every world whose counts and strings fit the widths they are written with, whose header has at most 13 tree tops, and whose chests have 40 slots and no item with a zero count. `Writing.Write` and `WorldReading.Read` connect that statement to the imperative encoder and decoder.
- **Decoder and encoder disagree in seven places.** The decoder does not give back what the encoder wrote in these cases. The model states each case as the source behaves, rather than as a round trip. For four of them it gives the world that comes back. The other three put the decoder out of step, and the model states them for one header or one chest. The seven cases:
  - The ice and jungle backgrounds are swapped: the encoder writes `jungle_bg` first, the decoder reads `ice_bg` first.
  - Chest item fields are misread: the encoder writes count, prefix, id, but the decoder reads count, id, prefix.
  - A chest item with a zero count is written as seven bytes, but the decoder reads an empty two-byte slot and then reads the next slot from the item's prefix and id.
  - A chest with a number of slots other than 40 is written as it is, but the decoder always reads 40 slots.
  - The shimmered NPC list is misread: the encoder writes NPC ids, but the decoder uses them as positions in the list of town NPCs.
  - The tree-top list is cut short: the decoder reads at most 13 entries and reads the fields after the list from the entries left over, so it falls out of step.
  - Tile-entity item ids are truncated to 16 bits. An item with a zero count held by an item frame, weapon rack or food platter is read back as an empty slot. Mannequin and hat-rack slots are present by mask, so they keep a zero count.
- **Exact round trips.** Everything else round-trips exactly for worlds whose counts and strings fit their widths, except for two things. The decoder always rebuilds a block's frame anchor from the importance table. The encoder writes only the first `width * height` cells of the plane, so any cells past them do not come back. `WorldFormat.WorldDecode` leaves out the tree-top, zero-count and slot-count cases, because in those the decoder falls out of step. The other four cases are part of the world it describes.

Integers of each width are subset types of `int`. A byte is `bv8`. Strings are
byte sequences. Floats are carried as their raw bits. Where the source
panics, the model returns an `Err` with a specific reason.

## Model

| member | source | states |
|---|---|---|
| Wire.U8RoundTrip | src/read.rs:35-37 | reading one byte gives back the byte the writer pushed, leaving the rest |
| Wire.UIntRoundTrip | src/read.rs:38-49 | the little-endian reader of width w inverts the little-endian writer for every value below 256^w |
| Wire.ReadUIntConsumes | src/read.rs:38-49 | with at least w bytes present the read succeeds, and re-encoding the value gives back exactly the bytes consumed |
| Wire.U16RoundTrip | src/read.rs:38-40 | `u16` inverts `Writer::u16` |
| Wire.U32RoundTrip | src/read.rs:41-43 | `u32` inverts `Writer::u32` (also `f32`, as bits) |
| Wire.U64RoundTrip | src/read.rs:44-46 | `u64` inverts `Writer::u64` (also `f64`, as bits) |
| Wire.U128RoundTrip | src/read.rs:47-49 | `u128` inverts `Writer::u128` |
| Wire.BoolRoundTrip | src/read.rs:56-58 | the writer's 1/0 byte reads back as the same bool (any non-zero byte reads as true) |
| Wire.StringRoundTrip | src/read.rs:59-61 | a string shorter than 256 bytes reads back unchanged after its length byte |
| Wire.StringLengthWraps | src/write.rs:26-29 | a 256-byte string is written with length byte 0, so it reads back as the empty string and its bytes are left unread |
| Wire.ManyDecode | src/read.rs:385-386 | n items written one after another read back, item by item, as whatever the item reader makes of each one |
| Wire.List16Decode | src/read.rs:192 | a list prefixed with its u16 length reads back item by item |
| Wire.List32Decode | src/read.rs:217 | a list prefixed with its u32 length reads back item by item |
| Wire.SentinelDecode | src/read.rs:404-420 | items each preceded by `true`, then a closing `false`, read back item by item by a `while r.bool()` loop |
| Reading.Reader.constructor | src/read.rs:13-19 | the cursor starts at the whole buffer, remembers its length, and has no offsets table |
| Reading.Reader.Position | src/read.rs:24-26 | the position is the buffer length minus the bytes not yet consumed |
| Reading.Reader.CheckPosition | src/read.rs:28-33 | succeeds exactly when offset i exists and equals the position; otherwise it returns the missing-offset or mismatch error |
| Reading.Reader.U8 | src/read.rs:35-37 | pops one byte, as `ReadU8` describes; it fails on an empty buffer |
| Reading.Reader.UInt | src/read.rs:38-49 | the shift-and-sum loop computes the little-endian value of the next w bytes and consumes them |
| Reading.Reader.U16 | src/read.rs:38-40 | behaves as `ReadU16` |
| Reading.Reader.U32 | src/read.rs:41-43 | behaves as `ReadU32` |
| Reading.Reader.U64 | src/read.rs:44-46 | behaves as `ReadU64` |
| Reading.Reader.U128 | src/read.rs:47-49 | behaves as `ReadU128` |
| Reading.Reader.Bool | src/read.rs:56-58 | behaves as `ReadBool`: a byte compared with 0 |
| Reading.Reader.Take | src/read.rs:60 | pops exactly n bytes, in order |
| Reading.Reader.String | src/read.rs:59-61 | reads a length byte and then that many bytes, as `ReadString` |
| Reading.Reader.U32s | src/read.rs:217 | reads n u32 values, as the counted-list decoder does |
| Reading.Reader.Strings | src/read.rs:182 | reads n strings, as the counted-list decoder does |
| Importance.Pack | src/write.rs:49-66 | packing n flags takes (n + 7) / 8 bytes |
| Importance.PackAt | src/write.rs:49-66 | flag j is bit j % 8 of packed byte j / 8 |
| Importance.UnpackPack | src/read.rs:75-87 | unpacking the packed bytes gives back exactly the flags |
| Importance.TableRoundTrip | src/read.rs:75-87 | the importance table (a u16 count, then packed bits) reads back as the same flags, for fewer than 65536 flags |
| TerrainReading.Unpacked | src/read.rs:75-87 | flags that agree bit by bit with the bytes are the unpacked table |
| TerrainReading.FlagsRead | src/read.rs:75-87 | the bit loop consumes ceil(len / 8) bytes and yields their unpacked bits, or fails when fewer bytes remain |
| TerrainReading.Table | src/read.rs:75-87 | the imperative bit loop over the count and the bytes behaves as `ReadTable` |
| TerrainReading.Value | src/read.rs:91-269 | reading one header field behaves as `ReadValue` for the field's kind |
| TerrainReading.Values | src/read.rs:91-269 | reading the header fields in order behaves as `ReadValues` over the schema |
| TerrainReading.Header | src/read.rs:91-269 | reads the whole header as `WorldFormat.ReadHeader` does |
| TileFormat.NormalizeCanonical | src/read.rs:296-316 | the tile the decoder rebuilds is in canonical shape, and a tile already canonical is left unchanged |
| TileFormat.FlagChainRoundTrip | src/read.rs:283-293 | the one-to-three flag bytes written for a run read back as the same three flag values |
| TileFormat.IdRoundTrip | src/read.rs:297-300 | a block or wall id reads back when its width flag says whether it is 256 or more |
| TileFormat.OptByteRoundTrip | src/read.rs:304 | an optional paint byte reads back under its flag |
| TileFormat.UVRoundTrip | src/read.rs:303 | a frame anchor reads back as two u16 values |
| TileFormat.BlockRoundTrip | src/read.rs:296-316 | the block bytes read back as the normalized block: id, anchor, paint, inactive flag and slope |
| TileFormat.WallRoundTrip | src/read.rs:317-327 | the wall bytes read back as the same wall |
| TileFormat.LiquidRoundTrip | src/read.rs:328-338 | the liquid kind, taken from the flag bits, and its amount byte read back as the same liquid |
| TileFormat.NarrowCount | src/read.rs:348-354 | a repeat count from 1 to 255 is one byte and reads back unchanged |
| TileFormat.WideCount | src/read.rs:348-354 | a repeat count of 256 or more is two bytes and reads back modulo 65536 |
| TileFormat.CountRoundTrip | src/read.rs:348-354 | whatever its width, the repeat count reads back modulo 65536 |
| TileFormat.FieldsRoundTrip | src/read.rs:296-354 | the fields after the flag bytes read back as the normalized tile with its count |
| TileFormat.RecordRoundTrip | src/read.rs:283-359 | a whole tile record reads back as (normalized tile, count modulo 65536) |
| PlaneFormat.RunEndSame | src/write.rs:253-261 | every cell inside the encoder's run equals the run's first cell |
| PlaneFormat.RunEndInside | src/write.rs:253-261 | no run crosses a column boundary |
| PlaneFormat.RunEndStops | src/write.rs:253-261 | a run ends at a column boundary or at the first differing cell, so it is as long as it can be |
| PlaneFormat.RunsExpand | src/write.rs:252-348 | expanding a column's runs gives back its cells, normalized |
| PlaneFormat.ChunksDecode | src/read.rs:275-369 | each run record of a column decodes as its run |
| PlaneFormat.ColumnRoundTrip | src/read.rs:275-369 | one column's records read back as the column's normalized cells |
| PlaneFormat.ColumnsDecode | src/read.rs:275-369 | every remaining column decodes as its cells |
| PlaneFormat.ReadColumns | src/read.rs:275-369 | columns that each decode, read in order, give the concatenation of their cells |
| PlaneFormat.ReadColumnStep | src/read.rs:356-359 | a run of count + 1 cells is pushed before the rest of the column |
| PlaneFormat.ReadPlaneStep | src/read.rs:275-369 | the plane is the first column followed by the other columns |
| PlaneFormat.PlaneRoundTrip | src/read.rs:275-369 | the run-length-encoded plane reads back as the first width * height cells, normalized, for columns of at most 65536 cells |
| Writing.RunScan | src/write.rs:253-261 | the scan stops exactly where the run specification `RunEnd` ends |
| TerrainReading.Block | src/read.rs:296-316 | reads the block under its flags, as `ReadBlock` |
| TerrainReading.Wall | src/read.rs:317-327 | reads the wall under its flags, as `ReadWall` |
| TerrainReading.Liquid | src/read.rs:328-338 | reads the liquid under its flags, as `ReadLiquid` |
| TerrainReading.FlagChain | src/read.rs:283-293 | reads one to three flag bytes, as `ReadFlagChain` |
| TerrainReading.Id | src/read.rs:297-300 | reads a one- or two-byte id, as `ReadId` |
| TerrainReading.OptByte | src/read.rs:304 | reads an optional byte, as `ReadOptByte` |
| TerrainReading.OptUV | src/read.rs:303 | reads an optional anchor, as `ReadOptUV` |
| TerrainReading.RunCount | src/read.rs:348-354 | reads the repeat count, as `ReadRunCount` |
| TerrainReading.Record | src/read.rs:283-354 | reads one tile record, as `ReadRecord` |
| TerrainReading.CellsOf | src/read.rs:346 | the cells named by the handles are the pool entries they index |
| TerrainReading.CellsGrow | src/read.rs:346 | the pool growing never changes the tile an existing handle names |
| TerrainReading.PushRepeated | src/read.rs:356-359 | pushing a handle n times adds n copies of its tile to the cells |
| TerrainReading.ColumnCons | src/read.rs:356-363 | a column is its first run repeated count + 1 times, then the rest of the column |
| TerrainReading.RunsAre | src/read.rs:356-363 | the column decoder over any decoder equal to `ReadRecord` is the column decoder |
| TerrainReading.ColumnsAre | src/read.rs:275-369 | the plane decoder over any decoder equal to `ReadRecord` is the plane decoder |
| TerrainReading.Column | src/read.rs:278-365 | the column loop reads the column's runs into handles whose tiles are the decoded cells; the pool only grows; too many cells are a column-overrun error |
| TerrainReading.NextRun | src/read.rs:283-363 | one run: read, interned in the pool, and pushed count + 1 times, or the error the column decoder gives |
| TerrainReading.AllColumns | src/read.rs:275-369 | the outer loop reads width columns, concatenating their cells |
| TerrainReading.Plane | src/read.rs:275-369 | the tile plane the decoder builds, as handles into the pool, has exactly the cells `ReadPlane` describes |
| TilePool.Pool.constructor | src/wld.rs:204 | the pool starts empty |
| TilePool.Pool.Contains | src/wld.rs:184 | membership in the pool's index agrees with membership in its entries |
| TilePool.Pool.GetOrInsert | src/read.rs:346 | returns the handle of an equal tile when there is one, and leaves the pool unchanged; otherwise appends the tile and returns its new handle |
| TilePool.Pool.Distinct | src/wld.rs:184 | no tile is stored twice, as in a hash set |
| HeaderFormat.ValueRoundTrip | src/read.rs:91-269 | every header field reads back when its value fits the width it is written with |
| HeaderFormat.StringsRoundTrip | src/read.rs:182 | the angler-finishers list of strings reads back |
| HeaderFormat.U32sRoundTrip16 | src/read.rs:192 | the kill-count list, counted by a u16, reads back |
| HeaderFormat.U32sRoundTrip32 | src/read.rs:217 | the party-NPC list, counted by a u32, reads back |
| HeaderFormat.TreeTopRoundTrip | src/read.rs:236 | a tree-top list of at most 13 entries reads back |
| HeaderFormat.TreeTopCapped | src/read.rs:236 | a longer tree-top list reads back as its first 13 entries; the rest are left unread in front of the next field |
| HeaderFormat.ValuesStep | src/read.rs:91-269 | a representable first field reads back, and the decoder goes on from the bytes of the fields after it |
| HeaderFormat.ValuesFrom | src/read.rs:91-269 | the first k fields, when representable, read back, and the decoder goes on from the bytes of the fields after them |
| HeaderFormat.TreeTopFirst | src/read.rs:236 | fields that start with more than 13 tree tops read back, if at all, with only the first 13 |
| HeaderFormat.TreeTopHeader | src/read.rs:236 | a written header with more than 13 tree tops reads back, if at all, with only 13, so never as the header written (backgrounds exchanged or not) |
| HeaderFormat.ValuesRoundTrip | src/read.rs:91-269 | any representable field sequence reads back field by field |
| HeaderFormat.SwapBackgrounds | src/write.rs:99-100 | the swapped header differs from the original only in ice_bg and jungle_bg, which trade values |
| HeaderFormat.HeaderDecode | src/read.rs:119-120 | the header the encoder writes reads back with ice_bg and jungle_bg exchanged and every other field unchanged |
| HeaderFormat.HeaderRoundTripIff | src/read.rs:119-120 | the header round-trips exactly if and only if ice_bg equals jungle_bg |
| HeaderFormat.PrefixRoundTrip | src/read.rs:67-71 | the version, magic number, file type, revision and favourite flag read back |
| ChestFormat.ShiftedU32 | src/read.rs:386 | a u32 read one byte early picks up the preceding byte as its low byte |
| ChestFormat.SlotSwap | src/read.rs:384-386 | a written slot reads back with id and prefix misread: the new id is the prefix plus 256 times the low 24 bits of the id, and the new prefix is the id's high byte |
| ChestFormat.SlotSwapExample | src/write.rs:363 | item 1 with prefix 0 reads back as item 256 |
| ChestFormat.ChestOpened | src/read.rs:379-389 | past x, y and the name, which read back unchanged, the decoder reads 40 slots from the written slot bytes whatever the chest's own slot count |
| ChestFormat.ZeroCountSlot | src/write.rs:362-364 | an item with a zero count, written as count, prefix and id, reads back as an empty slot and leaves the prefix and id unread |
| ChestFormat.ZeroCountChest | src/read.rs:384-387 | a chest whose first slot holds a zero-count item reads back with that slot empty, so not as the chest with its items misread |
| ChestFormat.ExtraSlots | src/write.rs:361-366 | a chest with more than 40 slots reads back as its first 40 slots, misread, and leaves the bytes of the others unread |
| ChestFormat.ChestSwap | src/read.rs:375-389 | a chest reads back with every item misread as above; position and name are unchanged |
| ChestFormat.ChestsCounted | src/read.rs:375-378 | after the count and the slot count 40, the chests are read one after another |
| ChestFormat.ChestsSwap | src/read.rs:375-389 | the chest section reads back as the misread chests, for fewer than 65536 writable chests |
| ChestFormat.WrongSlotCount | src/read.rs:376 | any slot count other than 40 is an error |
| ChestFormat.SignRoundTrip | src/read.rs:395 | a sign with text shorter than 256 bytes reads back |
| ChestFormat.SignsRoundTrip | src/read.rs:395 | the sign section reads back exactly |
| HoldingsReading.Slot | src/read.rs:384-386 | reads a slot: a zero count is empty, otherwise id, prefix and count |
| HoldingsReading.Slots | src/read.rs:383-386 | reads n slots, as the counted-list decoder |
| HoldingsReading.Chest | src/read.rs:379-388 | reads a chest, as `ReadChest` |
| HoldingsReading.Chests | src/read.rs:375-389 | reads the chest section, including the 40-slot check, as `ReadChests` |
| HoldingsReading.ChestList | src/read.rs:378-389 | the loop reads num chests, as the counted-list decoder |
| HoldingsReading.NextChest | src/read.rs:379-388 | one more chest moves from the still-to-read list to the read list |
| HoldingsReading.Sign | src/read.rs:395 | reads a sign, as `ReadSign` |
| HoldingsReading.Signs | src/read.rs:395 | reads the sign section, as `ReadSigns` |
| HoldingsReading.SignList | src/read.rs:395 | the loop reads num signs, as the counted-list decoder |
| HoldingsReading.NextSign | src/read.rs:395 | one more sign moves from the still-to-read list to the read list |
| NpcFormat.VariationRoundTrip | src/read.rs:413-416 | an NPC variation (a flag, then a u32 when the variation is non-zero) reads back |
| NpcFormat.TownDecode | src/read.rs:404-420 | a town NPC reads back with every written field, as not shimmered |
| NpcFormat.PillarDecode | src/read.rs:426-439 | a pillar reads back with id and position and every other field at its default |
| NpcFormat.MarkShimmeredSpec | src/read.rs:422-424 | marking succeeds if and only if every index is a town-NPC position; then exactly the NPCs at listed positions are shimmered, and nothing else changes |
| NpcFormat.MarkShimmeredError | src/read.rs:422-424 | the first index past the town NPCs is the error reported |
| NpcFormat.ShimmeredIdsMembers | src/write.rs:386-395 | the encoder's list holds exactly the ids of the shimmered NPCs |
| NpcFormat.ShimmeredIdsBound | src/write.rs:386-395 | there are no more shimmered ids than NPCs |
| NpcFormat.TownsThenPillars | src/write.rs:397-420 | when no pillar precedes a town NPC, the list is its town NPCs followed by its pillars |
| NpcFormat.NpcsDecode | src/read.rs:401-439 | the NPC section reads back as the town NPCs, marked at the positions named by the shimmered ids, followed by the pillars; an out-of-range id is an error |
| NpcFormat.NpcsRoundTrip | src/read.rs:401-439 | the NPC section round-trips when town NPCs come first, pillars carry only defaults, and every shimmered NPC's id equals its own position |
| NpcFormat.ShimmeredIdMisread | src/read.rs:402 | a single shimmered town NPC with id 3 makes the decoder fail: the id is used as a position |
| HoldingsReading.Variation | src/read.rs:413-416 | reads a variation, as `ReadVariation` |
| HoldingsReading.Town | src/read.rs:405-418 | reads a town NPC, as `ReadTown` |
| HoldingsReading.Pillar | src/read.rs:427-437 | reads a pillar, as `ReadPillar` |
| HoldingsReading.Towns | src/read.rs:404-420 | the `while r.bool()` loop reads town NPCs, as the sentinel-list decoder |
| HoldingsReading.Pillars | src/read.rs:426-439 | the `while r.bool()` loop reads pillars, as the sentinel-list decoder |
| HoldingsReading.Mark | src/read.rs:422-424 | the marking loop computes `MarkShimmered`, including its out-of-range error |
| HoldingsReading.Npcs | src/read.rs:401-439 | reads the NPC section, as `ReadNpcs` |
| EntityFormat.SlotsDecode | src/read.rs:461-490 | the present-slot mask decides which slots are read, and each present slot reads back in reduced form |
| EntityFormat.InfoDecode | src/read.rs:452-499 | each kind's payload reads back as its reduced form under the kind's tag |
| EntityFormat.ReducedIff | src/read.rs:452-499 | the reduced payload equals the original exactly when the payload is kept: every item id is below 65536, and an item held by a frame, rack or platter has a non-zero count (mannequin and hat-rack slots may keep a zero count) |
| EntityFormat.EntityDecode | src/read.rs:446-501 | a tile entity reads back with id and position, and its payload reduced |
| EntityFormat.EntitiesDecode | src/read.rs:446-501 | the tile-entity section reads back as the reduced entities |
| EntityFormat.EntitiesRoundTrip | src/read.rs:446-501 | the section round-trips when every payload is kept |
| EntityFormat.WideIdExample | src/write.rs:447 | an item frame holding item 65537 reads back holding item 1 |
| EntityFormat.ZeroCountExample | src/read.rs:473-478 | a weapon rack holding an item with count 0 reads back empty |
| EntityFormat.UnknownKind | src/read.rs:498 | a kind tag of 8 or more is an error |
| FixturesReading.Stored | src/read.rs:466 | reads a stored item, as `ReadStored` |
| FixturesReading.Held | src/read.rs:454-459 | reads a held item (a zero count is empty), as `ReadHeld` |
| FixturesReading.SlotsStep | src/read.rs:461-490 | one slot step of the mask loop: a marked slot is read, an unmarked slot is empty |
| FixturesReading.Rack | src/read.rs:461-490 | the mask loop reads the slots, as `ReadSlots` |
| FixturesReading.Info | src/read.rs:452-499 | dispatches on the tag, as `ReadInfo` |
| FixturesReading.Entity | src/read.rs:447-500 | reads a tile entity, as `ReadEntity` |
| FixturesReading.Entities | src/read.rs:446-501 | reads the tile-entity section, as `ReadEntities` |
| FixturesReading.EntityList | src/read.rs:446-501 | the loop reads num tile entities, as the counted-list decoder |
| FixturesReading.NextEntity | src/read.rs:447-500 | one more tile entity moves from the still-to-read list to the read list |
| MiscFormat.PlateRoundTrip | src/read.rs:506 | a pressure plate's position reads back |
| MiscFormat.PlatesRoundTrip | src/read.rs:506 | the pressure-plate section reads back |
| MiscFormat.RoomRoundTrip | src/read.rs:511 | an NPC room (id, x, y) reads back |
| MiscFormat.RoomsRoundTrip | src/read.rs:511 | the NPC-room section reads back |
| MiscFormat.KillRoundTrip | src/read.rs:516 | a bestiary kill (name, count) reads back |
| MiscFormat.KillsRoundTrip | src/read.rs:516 | the bestiary kill list reads back |
| MiscFormat.NamesRoundTrip | src/read.rs:517-518 | the bestiary sight and chat lists read back |
| MiscFormat.BestiaryRoundTrip | src/read.rs:516-518 | the bestiary section reads back |
| MiscFormat.PowerTag | src/write.rs:512-519 | the encoder's power tags are 0, 8, 9, 10, 12 and 13 |
| MiscFormat.ReadPower | src/read.rs:525-533 | a successful power read always consumes bytes, so the `while r.bool()` loop ends |
| MiscFormat.PowerRoundTrip | src/read.rs:525-533 | a creative power reads back under its tag |
| MiscFormat.PowersRoundTrip | src/read.rs:523-534 | the creative-power section reads back |
| MiscFormat.UnknownPower | src/read.rs:532 | any other power tag is an error |
| MiscFormat.TrailerIff | src/read.rs:538 | the trailer check passes if and only if the written name and id equal the header's |
| MiscFormat.TrailerFlag | src/read.rs:538 | a trailer whose flag byte is 0 is always rejected |
| FixturesReading.Plate | src/read.rs:506 | reads a pressure plate, as `ReadPlate` |
| FixturesReading.Plates | src/read.rs:506 | reads the pressure-plate section, as `ReadPlates` |
| FixturesReading.PlateList | src/read.rs:506 | the loop reads num pressure plates, as the counted-list decoder |
| FixturesReading.NextPlate | src/read.rs:506 | one more pressure plate moves from the still-to-read list to the read list |
| FixturesReading.Room | src/read.rs:511 | reads an NPC room, as `ReadRoom` |
| FixturesReading.Rooms | src/read.rs:511 | reads the NPC-room section, as `ReadRooms` |
| FixturesReading.RoomList | src/read.rs:511 | the loop reads num rooms, as the counted-list decoder |
| FixturesReading.NextRoom | src/read.rs:511 | one more room moves from the still-to-read list to the read list |
| FixturesReading.Kill | src/read.rs:516 | reads a bestiary kill, as `ReadKill` |
| FixturesReading.KillList | src/read.rs:516 | the loop reads num kills, as the counted-list decoder |
| FixturesReading.NextKill | src/read.rs:516 | one more kill moves from the still-to-read list to the read list |
| FixturesReading.Bestiary | src/read.rs:516-518 | reads the bestiary section, as `ReadBestiary` |
| FixturesReading.Power | src/read.rs:525-533 | reads one creative power, as `ReadPower` |
| FixturesReading.Powers | src/read.rs:523-534 | reads the creative-power section, as `ReadPowers` |
| FixturesReading.Trailer | src/read.rs:538 | reads and checks the trailer, as `ReadTrailer` |
| WorldFormat.CheckPosition | src/read.rs:28-33 | succeeds if and only if offset i exists and equals the bytes consumed; otherwise it is the missing-offset or the mismatch error |
| WorldFormat.Offsets | src/write.rs:10-16 | there is one recorded offset per section |
| WorldFormat.FileLength | src/write.rs:32-539 | the file is the prefix, the 2-byte table count, 4 bytes per offset, the sections and the trailer, in that order |
| WorldFormat.WorldDecode | src/read.rs:64-546 | decoding the encoder's output gives the same world, except for five differences: ice_bg and jungle_bg are exchanged; the plane is cut to its first `width * height` cells (the encoder writes no more) and normalized; chest items are misread; NPCs are as `NpcsRead` rebuilds them (or its error); tile entities are reduced |
| WorldReading.Prefix | src/read.rs:67-71 | reads the prefix, as `ReadPrefix` |
| WorldReading.Terrain | src/read.rs:73-371 | reads the offsets, the importance table, the header and the plane with their checkpoints, as `ReadTerrain` |
| WorldReading.Holdings | src/read.rs:373-442 | reads chests, signs and NPCs with their checkpoints, as `ReadHoldings` |
| WorldReading.Fixtures | src/read.rs:444-513 | reads tile entities, pressure plates and rooms with their checkpoints, as `ReadFixtures` |
| WorldReading.Journal | src/read.rs:515-538 | reads the bestiary, the powers and the trailer with their checkpoints, as `ReadJournal` |
| WorldReading.Parts | src/read.rs:64-546 | the decoder after the prefix builds a valid world whose contents are what `ReadTerrain` gives |
| WorldReading.Read | src/read.rs:64-546 | `read` builds a fresh, valid world equal to `ReadWorld(buffer)`, or fails with the same error |
| Writing.Writer.constructor | src/write.rs:40 | the buffer starts empty |
| Writing.Writer.U8 | src/write.rs:18 | appends the byte |
| Writing.Writer.U16 | src/write.rs:19 | appends the two little-endian bytes |
| Writing.Writer.U32 | src/write.rs:20 | appends the four little-endian bytes (also `f32`, as bits) |
| Writing.Writer.U64 | src/write.rs:21 | appends the eight little-endian bytes (also `f64`, as bits) |
| Writing.Writer.U128 | src/write.rs:22 | appends the sixteen little-endian bytes |
| Writing.Writer.Bool | src/write.rs:25 | appends 1 or 0 |
| Writing.Writer.String | src/write.rs:26-29 | appends the length byte, modulo 256, then the bytes |
| Writing.Writer.Mark | src/write.rs:10-16 | overwrites table slot i with the current length, as four little-endian bytes, and leaves every other byte and the length unchanged |
| Writing.Writer.Flags | src/write.rs:51-66 | the bit-packing loop appends exactly `Pack(flags)` |
| Writing.Writer.Importance | src/write.rs:49-66 | appends the importance table: the u16 count, then the packed bits |
| Writing.Writer.Plane | src/write.rs:252-348 | the run-scanning loop appends exactly the run-length encoding `PlaneBytes` |
| Writing.Writer.Runs | src/write.rs:252-348 | the loop over the column-major cells appends one record per run, in order, and nothing else |
| Writing.TileBytes | src/write.rs:263-347 | the record written for a tile repeated in k further cells is exactly the layout `RecordBytes` describes, which `TileFormat.RecordRoundTrip` reads back |
| Writing.TileFlags | src/write.rs:263-334 | the bits the arms add give the third flag byte, and the first and second flag bytes but for their continuation bit |
| Writing.ThirdFlag | src/write.rs:282-326 | block paint 8, inactive 4, wide wall id 64, wall paint 16, shimmer 128, yellow wire 32, actuator 2 add up to the layout's third flag byte |
| Writing.SecondFlag | src/write.rs:289-324 | the slope code shifted by 4 and the red, green and blue wire bits, plus bit 0 when a third byte is needed, are the layout's second flag byte |
| Writing.FirstFlag | src/write.rs:272-334 | block 2, wide block id 32, wall 4, the liquid code shifted by 3, and 64 once or twice for the count width, plus bit 0 when a second byte is needed, are the layout's first flag byte |
| Writing.Assembled | src/write.rs:337-347 | the flag bits and field bytes, with `c` and `b` put in front only when non-zero and the continuation bits added, are the record layout |
| Writing.Continued | src/write.rs:337-344 | the source's test "next byte non-zero" sets bit 0 exactly when the layout needs the next byte |
| Writing.Prefixed | src/write.rs:337-347 | the written bytes are `a`, then `b` and `c` when non-zero, then the field bytes, with bit 0 added to `b` when `c` is non-zero and to `a` when `b` is |
| Writing.FieldPushes | src/write.rs:271-334 | the bytes pushed into `temp` are the block, wall and liquid fields, then the repeat count, as `FieldBytes` lays them out |
| Writing.BlockFields | src/write.rs:271-296 | the block arm pushes the id (two bytes when wide), the anchor when the id is flagged important ((0, 0) when missing) and the paint |
| Writing.IdPush | src/write.rs:273-277 | an id is pushed as its low byte, then its high byte only when it is 256 or more |
| Writing.Anchor | src/write.rs:280 | the anchor is pushed as the two little-endian u16 values |
| Writing.WallFields | src/write.rs:299-310 | the wall arm pushes the id (two bytes when wide) and the paint |
| Writing.CountFields | src/write.rs:328-335 | a repeat count is pushed as one byte when non-zero, and a second byte when it is 256 or more |
| Writing.Writer.Field | src/write.rs:73-245 | appends one header field in its kind's encoding |
| Writing.Writer.Fields | src/write.rs:73-245 | appends the fields in schema order |
| Writing.Writer.Header | src/write.rs:73-245 | appends the header, ice_bg and jungle_bg in the encoder's order |
| Writing.Writer.Slot | src/write.rs:362-365 | appends a chest slot as count, prefix, id, or a zero count |
| Writing.Writer.Chests | src/write.rs:355-367 | appends the chest section |
| Writing.Writer.Signs | src/write.rs:374-379 | appends the sign section |
| Writing.GatherShimmered | src/write.rs:386-395 | collects the ids of exactly the shimmered NPCs, in order, and their count truncated to 32 bits |
| Writing.Writer.Shimmered | src/write.rs:386-395 | appends the count and the ids of the shimmered NPCs |
| Writing.Writer.TownList | src/write.rs:397-412 | appends every town NPC behind a `true` flag, then `false` |
| Writing.Writer.PillarList | src/write.rs:413-420 | appends every pillar behind a `true` flag, then `false` |
| Writing.Writer.Npcs | src/write.rs:386-420 | appends the NPC section |
| Writing.Writer.MannequinSlots | src/write.rs:452-461 | appends the 16-bit present mask, then the present items |
| Writing.Writer.HatRackSlots | src/write.rs:462-471 | appends the 8-bit present mask, then the present items |
| Writing.Writer.Info | src/write.rs:442-472 | appends a tile-entity payload |
| Writing.Writer.Entities | src/write.rs:427-473 | appends the tile-entity section |
| Writing.Writer.Plates | src/write.rs:477-481 | appends the pressure-plate section |
| Writing.Writer.Rooms | src/write.rs:485-490 | appends the NPC-room section |
| Writing.Writer.Bestiary | src/write.rs:494-506 | appends the bestiary section |
| Writing.Writer.Powers | src/write.rs:510-529 | appends the creative powers behind `true` flags, then `false` |
| Writing.Writer.Trailer | src/write.rs:533-535 | appends `true`, the name and the id |
| Writing.Writer.Prefix | src/write.rs:42-46 | appends the 24-byte prefix |
| Writing.Writer.Reserve | src/write.rs:47-48 | appends the table count and eleven zero offsets |
| Writing.MarksAreOffsets | src/write.rs:10-16 | the values the marks record are each section's end offset, as `Offsets` defines it |
| Writing.Writer.MarkPart | src/write.rs:68 | writing a section and marking it extends the draft (prefix, patched table, sections) by that section |
| Writing.Writer.Terrain | src/write.rs:49-348 | the importance table, header and plane, each marked, give the draft of the first three sections |
| Writing.Writer.Holdings | src/write.rs:355-422 | chests, signs and NPCs, each marked, extend the draft by their three sections |
| Writing.Writer.Fixtures | src/write.rs:427-490 | tile entities, plates and rooms, each marked, extend the draft by their three sections |
| Writing.Writer.Journal | src/write.rs:494-531 | bestiary and powers, each marked, extend the draft by their two sections |
| Writing.Finished | src/write.rs:533-539 | the finished draft followed by the trailer is the whole file `WorldBytes` |
| Writing.Encode | src/write.rs:32-539 | `write` produces exactly `WorldBytes` of the world |
| Writing.Write | src/write.rs:32-539 | writing a `Wld` produces `WorldBytes` of its snapshot, so `WorldDecode` describes what reading it back gives |
| WorldState.FreshHeader | src/wld.rs:205 | the header `_new` builds conforms to the schema and every field is representable |
| WorldState.FreshFields | src/wld.rs:205 | the fresh header declares a 100 by 100 plane, an empty name and id 0 |
| WorldState.Wld.Cells | src/wld.rs:184-185 | the world's cells are the pool tiles its handles point at |
| WorldState.Wld.Snapshot | src/wld.rs:6-199 | the value view of the world has its cells, header and importance table |
| WorldState.Wld.New | src/wld.rs:203-210 | `_new` gives a pool holding only the empty tile, one cell pointing at it, the default prefix and header, and empty lists; with one cell for a 100 by 100 plane the world is not writable |
| WorldState.Wld.SetBlock | src/wld.rs:227-230 | cell x * height + y becomes the tile, every other cell and field is unchanged, and the pool grows by at most that tile |
| WorldState.Wld.CellOf | src/wld.rs:229 | for y below the height, distinct (x, y) pairs address distinct cells |

## Left out

- File I/O in `Wld::read` and `Wld::write` (src/wld.rs:212-225) is left out. `WorldReading.Read` takes the buffer, and `Writing.Write` returns the bytes.
- `src/main.rs` and `src/texture_format.rs` are not part of this model. They are a command-line driver and a texture format.
- Progress messages (`println!`) are left out. So are the encoder's "too wide" and "too tall" warnings (src/write.rs:33-38), which print and change nothing.
- `Reader::_remaining` (src/read.rs:21-23) is left out. Nothing in the codec calls it.
- Strings are byte sequences. The decoder's UTF-8 validation (`String::from_utf8(..).unwrap()`, src/read.rs:60) is not modelled, so invalid UTF-8 is accepted rather than rejected.
- `f32` and `f64` are carried as their raw bits (`u32` and `u64`). The codec only copies them, so IEEE arithmetic is never needed.
- `Rc<Tile>` and `HashSet<Rc<Tile>>` are a pool of tiles with index handles, `TilePool.Pool`. Shared tiles are shared handles; memory reclamation is not modelled.
- Panics in the decoder are `Err` values. This covers a truncated buffer, a checkpoint mismatch, a chest slot count other than 40, an out-of-range shimmered index, an unknown tile-entity kind or power tag, a column overrun and a trailer mismatch. What is left in the cursor after an error is unspecified.
- Panics in the encoder are preconditions: an index outside `tiles` or `importance`, and a `u32` overflow of `width * height`. `Writing.Encode` and `Writing.Write` require the plane to be covered and `width * height` to fit in 32 bits.
- The header's 181 fields are one schema-driven vector of typed values, not 181 named record fields. The fields that the codec uses by name (name, id, width, height, ice_bg, jungle_bg, tree-top list) have accessors.
- WorldState.Wld.SetBlock: requires the cell index `x * height + y` (`CellIndex`) to fit in 32 bits and to index an existing cell. The source's `u32` product would wrap or panic otherwise.
- Writing.Encode: requires `Writable`, which holds only what the source's types guarantee and what it panics without: a 7-byte magic number (a `[u8; 7]`), a header of the schema's shape (a struct), a tile for every cell of the plane with the fields its importance flag calls for (an index panic otherwise), and `width * height` within 32 bits (the `u32` product). It does not require counts or strings to fit their widths: counts are written modulo 65536 or 2^32 and string lengths modulo 256, as the source's `as u16`, `as u32` and `as u8` casts do.
- TileFormat.RecordRoundTrip: the repeat count wraps modulo 65536, as in the source (`k as u8`, `(k >> 8) as u8`). It is stated for the count of one run, whose column height is at most 65536.
- WorldFormat.WorldDecode: is stated for worlds whose counts and strings fit their widths and whose file is shorter than 2^32 bytes (the `mark` offsets are `u32`). It also requires at most 13 tree tops in the header, and every chest to have exactly 40 slots and no item with a zero count, although the encoder writes such worlds. The decoder reads at most 13 tree tops and takes the entries left over for the fields after them, so the header does not come back (`HeaderFormat.TreeTopHeader`). The decoder reads exactly 40 slots, so a chest with more leaves the extra slots in the stream (`ChestFormat.ExtraSlots`) and a chest with fewer reads on into the next chest. An item with a zero count is written as seven bytes, but it is read back as an empty slot of two bytes, and the next slot is read from its prefix and id (`ChestFormat.ZeroCountSlot`, `ChestFormat.ZeroCountChest`). In these cases the decoder falls out of step with the file.
