/** The whole `.wld` file: the fixed prefix, a table of eleven section
    offsets, the importance table, the header, the tile plane, chests,
    signs, NPCs, tile entities, pressure plates, NPC rooms, the bestiary,
    the creative powers and a trailer that repeats the world's name and id.

    The decoder (src/read.rs:63-541) records the offsets table and, after
    each of the first eleven parts, checks that the number of bytes it has
    consumed equals the recorded offset.  The encoder (src/write.rs:32-539)
    writes zeros into the table and back-patches each slot with the length
    of the output once the part is written (`mark`, src/write.rs:10-16). */
module WorldFormat {
  import opened Structs
  import opened Wire
  import opened Importance
  import opened PlaneFormat
  import opened HeaderFormat
  import opened ChestFormat
  import opened NpcFormat
  import opened EntityFormat
  import opened MiscFormat

  /** Number of checkpointed parts, and so of offset slots. */
  const Checkpoints := 11
  /** The first offset slot sits after the 24-byte prefix and the u16 count. */
  const TableStart := 26
  /** The first section starts after the eleven slots. */
  const TableEnd := TableStart + 4 * Checkpoints

  datatype World = World(
    prefix: Prefix,
    importance: seq<bool>,
    header: seq<Value>,
    tiles: seq<Tile>,
    chests: seq<Chest>,
    signs: seq<Sign>,
    npcs: seq<Npc>,
    entities: seq<TileEntity>,
    plates: seq<(u32, u32)>,
    rooms: seq<NpcRoom>,
    bestiary: Bestiary,
    powers: seq<CreativePower>)

  // ---------------------------------------------------------------------
  // Decoder
  // ---------------------------------------------------------------------

  /** `check_position(i)` (src/read.rs:24-32): a missing i-th offset aborts
      the read, and so does an offset other than the bytes consumed. */
  function CheckPosition(positions: seq<u32>, i: nat, consumed: int): (r: Result<()>)
    ensures r.Ok? <==> i < |positions| && positions[i] == consumed
    ensures i >= |positions| ==> r == Err(NoCheckpoint(i))
    ensures i < |positions| && positions[i] != consumed ==> r == Err(CheckpointMismatch(i))
  {
    if i >= |positions| then Err(NoCheckpoint(i))
    else if positions[i] != consumed then Err(CheckpointMismatch(i))
    else Ok(())
  }

  function ReadHeader(s: Bytes): (r: Result<Parsed<seq<Value>>>)
    ensures r.Ok? ==> HasFields(r.value.value)
  {
    var header := ReadValues(s, HeaderSchema);
    if header.Ok? then WellFormedFields(header.value.value); header else header
  }

  /** The world before anything after the prefix is read. */
  function Blank(prefix: Prefix): World
  {
    World(prefix, [], [], [], [], [], [], [], [], [], Bestiary([], [], []), [])
  }

  /** `read` (src/read.rs:63-541): the prefix and the offsets table, then
      four stages that each read some parts and fill them in.  Every part
      is followed by the check of its offset; bytes after the trailer are
      ignored. */
  function ReadWorld(s: Bytes): Result<World>
  {
    var prefix :- ReadPrefix(s);
    var positions :- ReadList16(prefix.rest, ReadU32);
    ReadTerrain(s, positions.value, positions.rest, Blank(prefix.value))
  }

  /** The importance table, the header and the tile plane
      (src/read.rs:74-371). */
  function ReadTerrain(s: Bytes, p: seq<u32>, at: Bytes, w: World): Result<World>
  {
    var importance :- ReadTable(at);
    var _ :- CheckPosition(p, 0, |s| - |importance.rest|);
    var header :- ReadHeader(importance.rest);
    var _ :- CheckPosition(p, 1, |s| - |header.rest|);
    var h := header.value;
    var tiles :- ReadPlane(header.rest, importance.value, Width(h), Height(h));
    var _ :- CheckPosition(p, 2, |s| - |tiles.rest|);
    ReadHoldings(s, p, tiles.rest, w.(importance := importance.value, header := h, tiles := tiles.value))
  }

  /** Chests, signs and NPCs (src/read.rs:376-442). */
  function ReadHoldings(s: Bytes, p: seq<u32>, at: Bytes, w: World): Result<World>
    requires HasFields(w.header)
  {
    var chests :- ReadChests(at);
    var _ :- CheckPosition(p, 3, |s| - |chests.rest|);
    var signs :- ReadSigns(chests.rest);
    var _ :- CheckPosition(p, 4, |s| - |signs.rest|);
    var npcs :- ReadNpcs(signs.rest);
    var _ :- CheckPosition(p, 5, |s| - |npcs.rest|);
    ReadFixtures(s, p, npcs.rest, w.(chests := chests.value, signs := signs.value, npcs := npcs.value))
  }

  /** Tile entities, pressure plates and NPC rooms (src/read.rs:446-513). */
  function ReadFixtures(s: Bytes, p: seq<u32>, at: Bytes, w: World): Result<World>
    requires HasFields(w.header)
  {
    var entities :- ReadEntities(at);
    var _ :- CheckPosition(p, 6, |s| - |entities.rest|);
    var plates :- ReadPlates(entities.rest);
    var _ :- CheckPosition(p, 7, |s| - |plates.rest|);
    var rooms :- ReadRooms(plates.rest);
    var _ :- CheckPosition(p, 8, |s| - |rooms.rest|);
    ReadJournal(s, p, rooms.rest, w.(entities := entities.value, plates := plates.value, rooms := rooms.value))
  }

  /** The bestiary, the creative powers and the trailer, which must repeat
      the header's name and id (src/read.rs:516-538). */
  function ReadJournal(s: Bytes, p: seq<u32>, at: Bytes, w: World): Result<World>
    requires HasFields(w.header)
  {
    var bestiary :- ReadBestiary(at);
    var _ :- CheckPosition(p, 9, |s| - |bestiary.rest|);
    var powers :- ReadPowers(bestiary.rest);
    var _ :- CheckPosition(p, 10, |s| - |powers.rest|);
    var _ :- ReadTrailer(powers.rest, Name(w.header), Id(w.header));
    Ok(w.(bestiary := bestiary.value, powers := powers.value))
  }

  // ---------------------------------------------------------------------
  // Encoder
  // ---------------------------------------------------------------------

  /** What the encoder needs not to panic: a 7-byte magic number, a header
      of the right shape and a tile for every cell of the plane, each with
      the fields its importance flag calls for. */
  predicate Writable(w: World)
  {
    && ValidPrefix(w.prefix)
    && WellFormedHeader(w.header) && HasFields(w.header)
    && PlaneCovered(w.tiles, Width(w.header), Height(w.header), w.importance)
  }

  /** The parts marked as 0 to 2: the importance table, the header and
      the tile plane. */
  function TerrainSections(importance: seq<bool>, h: seq<Value>, tiles: seq<Tile>): (parts: seq<Bytes>)
    requires WellFormedHeader(h) && HasFields(h)
    requires PlaneCovered(tiles, Width(h), Height(h), importance)
    ensures |parts| == 3
  {
    [TableBytes(importance), HeaderBytes(h), PlaneBytes(tiles, Width(h), Height(h), importance)]
  }

  /** The parts marked as 3 to 5: chests, signs and NPCs. */
  function HoldingsSections(chests: seq<Chest>, signs: seq<Sign>, npcs: seq<Npc>): (parts: seq<Bytes>)
    ensures |parts| == 3
  {
    [ChestsBytes(chests), SignsBytes(signs), NpcsBytes(npcs)]
  }

  /** The parts marked as 6 to 8: tile entities, pressure plates and NPC
      rooms. */
  function FixturesSections(entities: seq<TileEntity>, plates: seq<(u32, u32)>, rooms: seq<NpcRoom>): (parts: seq<Bytes>)
    ensures |parts| == 3
  {
    [EntitiesBytes(entities), PlatesBytes(plates), RoomsBytes(rooms)]
  }

  /** The parts marked as 9 and 10: the bestiary and the creative powers. */
  function JournalSections(bestiary: Bestiary, powers: seq<CreativePower>): (parts: seq<Bytes>)
    ensures |parts| == 2
  {
    [BestiaryBytes(bestiary), PowersBytes(powers)]
  }

  /** The eleven checkpointed parts, each as the encoder writes it, in the
      four stages the encoder and the decoder both go through. */
  function Sections(w: World): (parts: seq<Bytes>)
    requires Writable(w)
    ensures |parts| == Checkpoints
  {
    TerrainSections(w.importance, w.header, w.tiles)
    + HoldingsSections(w.chests, w.signs, w.npcs)
    + FixturesSections(w.entities, w.plates, w.rooms)
    + JournalSections(w.bestiary, w.powers)
  }

  function Joined(parts: seq<Bytes>): Bytes
  {
    if parts == [] then [] else parts[0] + Joined(parts[1..])
  }

  /** The value `mark(i)` writes: the output length once part `i` is
      written, as a u32. */
  function Offsets(parts: seq<Bytes>): (offsets: seq<u32>)
    ensures |offsets| == |parts|
  {
    seq(|parts|, i requires 0 <= i < |parts| => (TableEnd + |Joined(parts[..i + 1])|) % 0x1_0000_0000)
  }

  /** A prefix, the offsets table of `parts`, the parts, and a trailer. */
  function FileBytes(prefix: Bytes, parts: seq<Bytes>, trailer: Bytes): Bytes
  {
    prefix + List16Bytes(Offsets(parts), U32Bytes) + Joined(parts) + trailer
  }

  /** The file `write` (src/write.rs:32-539) produces, after every slot of
      the offsets table has been back-patched. */
  function WorldBytes(w: World): Bytes
    requires Writable(w)
  {
    FileBytes(PrefixBytes(w.prefix), Sections(w), TrailerBytes(Name(w.header), Id(w.header)))
  }

  // ---------------------------------------------------------------------
  // Reading back what was written
  // ---------------------------------------------------------------------

  /** The conditions under which every part decodes: counts and strings
      within the widths they are written with, a column no taller than a
      run can cover, and a file short enough for its offsets not to wrap. */
  predicate Decodable(w: World)
  {
    Storable(w) && |WorldBytes(w)| < 0x1_0000_0000
  }

  /** Every count and string within the width it is written with, and no
      column taller than a run can cover. */
  predicate Storable(w: World)
  {
    && Writable(w)
    && RepresentableHeader(w.header)
    && Height(w.header) <= 0x1_0000
    && |w.importance| < 0x1_0000
    && |w.chests| < 0x1_0000 && (forall c :: c in w.chests ==> WritableChest(c))
    && |w.signs| < 0x1_0000 && (forall sign :: sign in w.signs ==> |sign.text| < 256)
    && |ShimmeredIds(w.npcs)| < 0x1_0000_0000
    && (forall npc :: npc in w.npcs && !npc.isPillar ==> |npc.name| < 256)
    && |w.entities| < 0x1_0000_0000
    && |w.plates| < 0x1_0000_0000
    && |w.rooms| < 0x1_0000_0000
    && |w.bestiary.kills| < 0x1_0000_0000 && (forall k :: k in w.bestiary.kills ==> |k.0| < 256)
    && |w.bestiary.sights| < 0x1_0000_0000 && (forall n :: n in w.bestiary.sights ==> |n| < 256)
    && |w.bestiary.chats| < 0x1_0000_0000 && (forall n :: n in w.bestiary.chats ==> |n| < 256)
  }

  /** The world the decoder sees in a written file: the backgrounds traded,
      the plane cut to its cells and normalized, chest items with id and
      prefix traded, the NPCs as the NPC section reads them, tile-entity
      payloads with item ids cut to 16 bits and held items of zero count
      emptied, and everything else unchanged. */
  function Decoded(w: World, npcs: seq<Npc>): World
    requires Writable(w)
  {
    var h := w.header;
    World(w.prefix, w.importance, SwapBackgrounds(h),
          NormalizeAll(w.tiles[..Width(h) * Height(h)], w.importance),
          MapSeq(w.chests, SwappedChest), w.signs, npcs,
          MapSeq(w.entities, ReducedEntity), w.plates, w.rooms, w.bestiary, w.powers)
  }

  lemma {:induction false} JoinedSplit(parts: seq<Bytes>, k: nat)
    requires k <= |parts|
    ensures Joined(parts) == Joined(parts[..k]) + Joined(parts[k..])
    decreases k
  {
    if k == 0 {
      assert parts[..k] == [] && parts[k..] == parts;
    } else {
      JoinedSplit(parts[1..], k - 1);
      assert parts[1..][..k - 1] == parts[1..k] && parts[1..][k - 1..] == parts[k..];
      assert parts[..k][1..] == parts[1..k];
      Assoc(parts[0], Joined(parts[1..k]), Joined(parts[k..]));
    }
  }

  lemma JoinedAt(parts: seq<Bytes>, k: nat)
    requires k < |parts|
    ensures Joined(parts[k..]) == parts[k] + Joined(parts[k + 1..])
  {
    assert parts[k..][1..] == parts[k + 1..];
  }

  lemma {:induction false} U32sLength(xs: seq<u32>)
    ensures |ManyBytes(xs, U32Bytes)| == 4 * |xs|
  {
    if xs != [] {
      U32sLength(xs[1..]);
    }
  }

  lemma FileLength(prefix: Bytes, parts: seq<Bytes>, trailer: Bytes)
    ensures |FileBytes(prefix, parts, trailer)|
         == |prefix| + 2 + 4 * |parts| + |Joined(parts)| + |trailer|
  {
    U32sLength(Offsets(parts));
  }

  /** What follows part `k` of the file is the rest of the parts and the
      trailer, and offset `k` counts the bytes before that. */
  lemma SectionAt(prefix: Bytes, parts: seq<Bytes>, trailer: Bytes, k: nat)
    requires |prefix| == 24 && |parts| == Checkpoints && k < Checkpoints
    requires |FileBytes(prefix, parts, trailer)| < 0x1_0000_0000
    ensures Joined(parts[k..]) + trailer == parts[k] + (Joined(parts[k + 1..]) + trailer)
    ensures Offsets(parts)[k] == |FileBytes(prefix, parts, trailer)| - |Joined(parts[k + 1..]) + trailer|
  {
    JoinedAt(parts, k);
    Assoc(parts[k], Joined(parts[k + 1..]), trailer);
    var before, after := Joined(parts[..k + 1]), Joined(parts[k + 1..]);
    JoinedSplit(parts, k + 1);
    assert |Joined(parts)| == |before| + |after|;
    FileLength(prefix, parts, trailer);
    assert Offsets(parts)[k] == (TableEnd + |before|) % 0x1_0000_0000;
  }

  lemma SwapKeepsFields(h: seq<Value>)
    requires HasFields(h)
    ensures var swapped := SwapBackgrounds(h);
            && Width(swapped) == Width(h) && Height(swapped) == Height(h)
            && Name(swapped) == Name(h) && Id(swapped) == Id(h)
  {
  }

  /** The name fits the trailer's u8 length. */
  lemma NameFits(h: seq<Value>)
    requires RepresentableHeader(h)
    ensures |Name(h)| < 256
  {
    assert Representable(HeaderSchema[NameField], h[NameField]);
  }

  /** The parts from each `k` on, then the trailer. */
  ghost function Tails(parts: seq<Bytes>, trailer: Bytes): (t: seq<Bytes>)
    ensures |t| == |parts| + 1
    ensures forall k :: 0 <= k <= |parts| ==> t[k] == Joined(parts[k..]) + trailer
  {
    seq(|parts| + 1, k requires 0 <= k <= |parts| => Joined(parts[k..]) + trailer)
  }

  /** The bytes consumed when `t[k + 1]` is left match offset `k`. */
  predicate Checked(s: Bytes, p: seq<u32>, t: seq<Bytes>, k: nat)
    requires k + 1 < |t|
  {
    CheckPosition(p, k, |s| - |t[k + 1]|) == Ok(())
  }

  lemma TerrainDecode(s: Bytes, p: seq<u32>, t: seq<Bytes>, w: World,
                      importance: seq<bool>, header: seq<Value>, tiles: seq<Tile>)
    requires |t| == Checkpoints + 1
    requires ReadTable(t[0]) == Ok(Parsed(importance, t[1]))
    requires ReadHeader(t[1]) == Ok(Parsed(header, t[2]))
    requires ReadPlane(t[2], importance, Width(header), Height(header)) == Ok(Parsed(tiles, t[3]))
    requires Checked(s, p, t, 0) && Checked(s, p, t, 1) && Checked(s, p, t, 2)
    ensures ReadTerrain(s, p, t[0], w)
         == ReadHoldings(s, p, t[3], w.(importance := importance, header := header, tiles := tiles))
  {
  }

  lemma HoldingsDecode(s: Bytes, p: seq<u32>, t: seq<Bytes>, w: World,
                       chests: seq<Chest>, signs: seq<Sign>, npcs: Result<seq<Npc>>)
    requires |t| == Checkpoints + 1 && HasFields(w.header)
    requires ReadChests(t[3]) == Ok(Parsed(chests, t[4]))
    requires ReadSigns(t[4]) == Ok(Parsed(signs, t[5]))
    requires ReadNpcs(t[5]) == match npcs case Ok(v) => Ok(Parsed(v, t[6])) case Err(e) => Err(e)
    requires Checked(s, p, t, 3) && Checked(s, p, t, 4) && Checked(s, p, t, 5)
    ensures ReadHoldings(s, p, t[3], w)
         == match npcs
            case Ok(v) => ReadFixtures(s, p, t[6], w.(chests := chests, signs := signs, npcs := v))
            case Err(e) => Err(e)
  {
  }

  lemma FixturesDecode(s: Bytes, p: seq<u32>, t: seq<Bytes>, w: World,
                       entities: seq<TileEntity>, plates: seq<(u32, u32)>, rooms: seq<NpcRoom>)
    requires |t| == Checkpoints + 1 && HasFields(w.header)
    requires ReadEntities(t[6]) == Ok(Parsed(entities, t[7]))
    requires ReadPlates(t[7]) == Ok(Parsed(plates, t[8]))
    requires ReadRooms(t[8]) == Ok(Parsed(rooms, t[9]))
    requires Checked(s, p, t, 6) && Checked(s, p, t, 7) && Checked(s, p, t, 8)
    ensures ReadFixtures(s, p, t[6], w)
         == ReadJournal(s, p, t[9], w.(entities := entities, plates := plates, rooms := rooms))
  {
  }

  lemma JournalDecode(s: Bytes, p: seq<u32>, t: seq<Bytes>, w: World,
                      bestiary: Bestiary, powers: seq<CreativePower>)
    requires |t| == Checkpoints + 1 && HasFields(w.header)
    requires ReadBestiary(t[9]) == Ok(Parsed(bestiary, t[10]))
    requires ReadPowers(t[10]) == Ok(Parsed(powers, t[11]))
    requires Checked(s, p, t, 9) && Checked(s, p, t, 10)
    requires ReadTrailer(t[11], Name(w.header), Id(w.header)).Ok?
    ensures ReadJournal(s, p, t[9], w) == Ok(w.(bestiary := bestiary, powers := powers))
  {
  }

  // What each part decodes to, given the bytes the encoder wrote for it.

  /** `t[from + j]` is part `j` of `stage` followed by `t[from + j + 1]`:
      the cuts of a file around one stage, of at most three parts. */
  predicate Chained(t: seq<Bytes>, from: nat, stage: seq<Bytes>)
  {
    && 0 < |stage| <= 3 && from + |stage| < |t|
    && t[from] == stage[0] + t[from + 1]
    && (|stage| > 1 ==> t[from + 1] == stage[1] + t[from + 2])
    && (|stage| > 2 ==> t[from + 2] == stage[2] + t[from + 3])
  }

  /** Cuts around eleven parts are cuts around each of the four stages. */
  lemma StagesChained(t: seq<Bytes>, a: seq<Bytes>, b: seq<Bytes>, c: seq<Bytes>, d: seq<Bytes>)
    requires |a| == 3 && |b| == 3 && |c| == 3 && |d| == 2 && |t| == Checkpoints + 1
    requires forall k :: 0 <= k < Checkpoints ==> t[k] == (a + b + c + d)[k] + t[k + 1]
    ensures Chained(t, 0, a) && Chained(t, 3, b) && Chained(t, 6, c) && Chained(t, 9, d)
  {
    var all := a + b + c + d;
    assert all[0] == a[0] && all[1] == a[1] && all[2] == a[2];
    assert all[3] == b[0] && all[4] == b[1] && all[5] == b[2];
    assert all[6] == c[0] && all[7] == c[1] && all[8] == c[2];
    assert all[9] == d[0] && all[10] == d[1];
  }

  lemma TerrainParts(t: seq<Bytes>, importance: seq<bool>, h: seq<Value>, tiles: seq<Tile>)
    requires |t| == Checkpoints + 1
    requires |importance| < 0x1_0000 && RepresentableHeader(h) && HasFields(h)
    requires PlaneCovered(tiles, Width(h), Height(h), importance)
    requires Chained(t, 0, TerrainSections(importance, h, tiles))
    ensures ReadTable(t[0]) == Ok(Parsed(importance, t[1]))
    ensures ReadHeader(t[1]) == Ok(Parsed(SwapBackgrounds(h), t[2]))
  {
    TableParts(t, importance, h);
  }

  lemma TerrainPlane(t: seq<Bytes>, importance: seq<bool>, h: seq<Value>, tiles: seq<Tile>)
    requires |t| == Checkpoints + 1
    requires WellFormedHeader(h) && HasFields(h) && Height(h) <= 0x1_0000
    requires PlaneCovered(tiles, Width(h), Height(h), importance)
    requires Chained(t, 0, TerrainSections(importance, h, tiles))
    ensures ReadPlane(t[2], importance, Width(h), Height(h))
         == Ok(Parsed(NormalizeAll(tiles[..Width(h) * Height(h)], importance), t[3]))
  {
    PlaneParts(t, importance, Width(h), Height(h), tiles);
  }

  lemma TableParts(t: seq<Bytes>, importance: seq<bool>, h: seq<Value>)
    requires |t| == Checkpoints + 1
    requires |importance| < 0x1_0000 && t[0] == TableBytes(importance) + t[1]
    requires RepresentableHeader(h) && t[1] == HeaderBytes(h) + t[2]
    ensures ReadTable(t[0]) == Ok(Parsed(importance, t[1]))
    ensures ReadHeader(t[1]) == Ok(Parsed(SwapBackgrounds(h), t[2]))
  {
    TableRoundTrip(importance, t[1]);
    HeaderDecode(h, t[2]);
  }

  lemma PlaneParts(t: seq<Bytes>, importance: seq<bool>, width: u32, height: u32, tiles: seq<Tile>)
    requires |t| == Checkpoints + 1
    requires height <= 0x1_0000 && PlaneCovered(tiles, width, height, importance)
    requires t[2] == PlaneBytes(tiles, width, height, importance) + t[3]
    ensures ReadPlane(t[2], importance, width, height)
         == Ok(Parsed(NormalizeAll(tiles[..width * height], importance), t[3]))
  {
    PlaneRoundTrip(tiles, width, height, importance, t[3]);
  }

  lemma HoldingsParts(t: seq<Bytes>, chests: seq<Chest>, signs: seq<Sign>, npcs: seq<Npc>)
    requires |t| == Checkpoints + 1
    requires |chests| < 0x1_0000 && (forall c :: c in chests ==> WritableChest(c))
    requires |signs| < 0x1_0000 && (forall sign :: sign in signs ==> |sign.text| < 256)
    requires |ShimmeredIds(npcs)| < 0x1_0000_0000
    requires forall npc :: npc in npcs && !npc.isPillar ==> |npc.name| < 256
    requires Chained(t, 3, HoldingsSections(chests, signs, npcs))
    ensures ReadChests(t[3]) == Ok(Parsed(MapSeq(chests, SwappedChest), t[4]))
    ensures ReadSigns(t[4]) == Ok(Parsed(signs, t[5]))
    ensures ReadNpcs(t[5]) == match NpcsRead(npcs) case Ok(v) => Ok(Parsed(v, t[6])) case Err(e) => Err(e)
  {
    assert t[3] == ChestsBytes(chests) + t[4];
    ChestsSwap(chests, t[4]);
    assert t[4] == SignsBytes(signs) + t[5];
    SignsRoundTrip(signs, t[5]);
    assert t[5] == NpcsBytes(npcs) + t[6];
    NpcsDecode(npcs, t[6]);
  }

  lemma FixturesParts(t: seq<Bytes>, entities: seq<TileEntity>, plates: seq<(u32, u32)>, rooms: seq<NpcRoom>)
    requires |t| == Checkpoints + 1
    requires |entities| < 0x1_0000_0000 && |plates| < 0x1_0000_0000 && |rooms| < 0x1_0000_0000
    requires Chained(t, 6, FixturesSections(entities, plates, rooms))
    ensures ReadEntities(t[6]) == Ok(Parsed(MapSeq(entities, ReducedEntity), t[7]))
    ensures ReadPlates(t[7]) == Ok(Parsed(plates, t[8]))
    ensures ReadRooms(t[8]) == Ok(Parsed(rooms, t[9]))
  {
    assert t[6] == EntitiesBytes(entities) + t[7];
    EntitiesDecode(entities, t[7]);
    assert t[7] == PlatesBytes(plates) + t[8];
    PlatesRoundTrip(plates, t[8]);
    assert t[8] == RoomsBytes(rooms) + t[9];
    RoomsRoundTrip(rooms, t[9]);
  }

  lemma JournalParts(t: seq<Bytes>, bestiary: Bestiary, powers: seq<CreativePower>, name: Bytes, id: u32)
    requires |t| == Checkpoints + 1
    requires |name| < 256
    requires |bestiary.kills| < 0x1_0000_0000 && (forall k :: k in bestiary.kills ==> |k.0| < 256)
    requires |bestiary.sights| < 0x1_0000_0000 && (forall n :: n in bestiary.sights ==> |n| < 256)
    requires |bestiary.chats| < 0x1_0000_0000 && (forall n :: n in bestiary.chats ==> |n| < 256)
    requires Chained(t, 9, JournalSections(bestiary, powers)) && t[11] == TrailerBytes(name, id)
    ensures ReadBestiary(t[9]) == Ok(Parsed(bestiary, t[10]))
    ensures ReadPowers(t[10]) == Ok(Parsed(powers, t[11]))
    ensures ReadTrailer(t[11], name, id) == Ok([])
  {
    assert t[9] == BestiaryBytes(bestiary) + t[10];
    BestiaryRoundTrip(bestiary, t[10]);
    assert t[10] == PowersBytes(powers) + t[11];
    PowersRoundTrip(powers, t[11]);
    TrailerIff(name, id, name, id, []);
    assert t[11] == t[11] + [];
  }

  /** Part `k` of the file is followed by the later parts, and passes
      its checkpoint. */
  lemma PartAt(prefix: Bytes, parts: seq<Bytes>, trailer: Bytes, k: nat)
    requires |prefix| == 24 && |parts| == Checkpoints && k < Checkpoints
    requires |FileBytes(prefix, parts, trailer)| < 0x1_0000_0000
    ensures var t := Tails(parts, trailer);
            && t[k] == parts[k] + t[k + 1]
            && Checked(FileBytes(prefix, parts, trailer), Offsets(parts), t, k)
  {
    SectionAt(prefix, parts, trailer, k);
  }

  /** A file made of a prefix, the offsets table, eleven parts and a
      trailer, cut at the end of each part: `t[k]` is what follows part
      `k - 1`, and each part passes its checkpoint. */
  lemma FileLayout(prefix: Bytes, parts: seq<Bytes>, trailer: Bytes) returns (t: seq<Bytes>)
    requires |prefix| == 24 && |parts| == Checkpoints
    requires |FileBytes(prefix, parts, trailer)| < 0x1_0000_0000
    ensures |t| == Checkpoints + 1 && t[Checkpoints] == trailer
    ensures FileBytes(prefix, parts, trailer) == prefix + (List16Bytes(Offsets(parts), U32Bytes) + t[0])
    ensures forall k :: 0 <= k < Checkpoints ==> t[k] == parts[k] + t[k + 1]
    ensures forall k :: 0 <= k < Checkpoints ==> Checked(FileBytes(prefix, parts, trailer), Offsets(parts), t, k)
  {
    var s := FileBytes(prefix, parts, trailer);
    var table := List16Bytes(Offsets(parts), U32Bytes);
    t := Tails(parts, trailer);
    assert s == prefix + (table + t[0]) by {
      assert parts[0..] == parts;
      Assoc(prefix + table, Joined(parts), trailer);
      Assoc(prefix, table, Joined(parts) + trailer);
    }
    forall k | 0 <= k < Checkpoints
      ensures t[k] == parts[k] + t[k + 1] && Checked(s, Offsets(parts), t, k)
    {
      PartAt(prefix, parts, trailer, k);
    }
    assert parts[Checkpoints..] == [];
  }

  /** A file `s` whose prefix, offsets table and parts decode to the
      fields of `w`, each part passing its checkpoint; the NPC section
      may fail instead. */
  predicate Decodes(s: Bytes, offsets: seq<u32>, t: seq<Bytes>, afterPrefix: Bytes, w: World, npcs: Result<seq<Npc>>)
  {
    && |t| == Checkpoints + 1 && HasFields(w.header)
    && ReadPrefix(s) == Ok(Parsed(w.prefix, afterPrefix))
    && ReadList16(afterPrefix, ReadU32) == Ok(Parsed(offsets, t[0]))
    && ReadTable(t[0]) == Ok(Parsed(w.importance, t[1]))
    && ReadHeader(t[1]) == Ok(Parsed(w.header, t[2]))
    && ReadPlane(t[2], w.importance, Width(w.header), Height(w.header)) == Ok(Parsed(w.tiles, t[3]))
    && ReadChests(t[3]) == Ok(Parsed(w.chests, t[4]))
    && ReadSigns(t[4]) == Ok(Parsed(w.signs, t[5]))
    && ReadNpcs(t[5]) == (match npcs case Ok(v) => Ok(Parsed(v, t[6])) case Err(e) => Err(e))
    && ReadEntities(t[6]) == Ok(Parsed(w.entities, t[7]))
    && ReadPlates(t[7]) == Ok(Parsed(w.plates, t[8]))
    && ReadRooms(t[8]) == Ok(Parsed(w.rooms, t[9]))
    && ReadBestiary(t[9]) == Ok(Parsed(w.bestiary, t[10]))
    && ReadPowers(t[10]) == Ok(Parsed(w.powers, t[11]))
    && ReadTrailer(t[11], Name(w.header), Id(w.header)).Ok?
    && forall k :: 0 <= k < Checkpoints ==> Checked(s, offsets, t, k)
  }

  /** The decoder's run over a file whose parts decode to the fields of
      `w`, each passing its checkpoint; the NPC section may fail instead. */
  lemma DecodeChain(s: Bytes, offsets: seq<u32>, t: seq<Bytes>, afterPrefix: Bytes, w: World, npcs: Result<seq<Npc>>)
    requires Decodes(s, offsets, t, afterPrefix, w, npcs)
    ensures ReadWorld(s) == match npcs case Ok(v) => Ok(w.(npcs := v)) case Err(e) => Err(e)
  {
    var w0 := Blank(w.prefix);
    assert ReadWorld(s) == ReadTerrain(s, offsets, t[0], w0);
    assert Checked(s, offsets, t, 0) && Checked(s, offsets, t, 1) && Checked(s, offsets, t, 2);
    TerrainDecode(s, offsets, t, w0, w.importance, w.header, w.tiles);
    var w1 := w0.(importance := w.importance, header := w.header, tiles := w.tiles);
    assert Checked(s, offsets, t, 3) && Checked(s, offsets, t, 4) && Checked(s, offsets, t, 5);
    HoldingsDecode(s, offsets, t, w1, w.chests, w.signs, npcs);
    if npcs.Ok? {
      var w2 := w1.(chests := w.chests, signs := w.signs, npcs := npcs.value);
      assert Checked(s, offsets, t, 6) && Checked(s, offsets, t, 7) && Checked(s, offsets, t, 8);
      FixturesDecode(s, offsets, t, w2, w.entities, w.plates, w.rooms);
      var w3 := w2.(entities := w.entities, plates := w.plates, rooms := w.rooms);
      assert Checked(s, offsets, t, 9) && Checked(s, offsets, t, 10);
      JournalDecode(s, offsets, t, w3, w.bestiary, w.powers);
      assert w3.(bestiary := w.bestiary, powers := w.powers) == w.(npcs := npcs.value);
    }
  }

  /** The cuts of the file around each stage of the parts a world is
      written as, and the trailer after the last. */
  predicate Staged(t: seq<Bytes>, w: World)
    requires Writable(w)
  {
    && |t| == Checkpoints + 1
    && Chained(t, 0, TerrainSections(w.importance, w.header, w.tiles))
    && Chained(t, 3, HoldingsSections(w.chests, w.signs, w.npcs))
    && Chained(t, 6, FixturesSections(w.entities, w.plates, w.rooms))
    && Chained(t, 9, JournalSections(w.bestiary, w.powers))
    && t[Checkpoints] == TrailerBytes(Name(w.header), Id(w.header))
  }

  /** The written file, cut at the end of each part. */
  lemma WorldCuts(w: World) returns (t: seq<Bytes>)
    requires Writable(w) && |WorldBytes(w)| < 0x1_0000_0000
    ensures Staged(t, w)
    ensures var s, offsets := WorldBytes(w), Offsets(Sections(w));
            && |offsets| == Checkpoints
            && s == PrefixBytes(w.prefix) + (List16Bytes(offsets, U32Bytes) + t[0])
            && (forall k :: 0 <= k < Checkpoints ==> Checked(s, offsets, t, k))
  {
    var parts := Sections(w);
    t := FileLayout(PrefixBytes(w.prefix), parts, TrailerBytes(Name(w.header), Id(w.header)));
    StagesChained(t, TerrainSections(w.importance, w.header, w.tiles), HoldingsSections(w.chests, w.signs, w.npcs),
                  FixturesSections(w.entities, w.plates, w.rooms), JournalSections(w.bestiary, w.powers));
  }

  /** A file laid out as a world is written decodes, part by part, to
      `Decoded(w, ...)`, each part passing its checkpoint. */
  lemma StagedParts(s: Bytes, offsets: seq<u32>, t: seq<Bytes>, w: World)
    requires Storable(w) && Staged(t, w) && |offsets| == Checkpoints
    requires s == PrefixBytes(w.prefix) + (List16Bytes(offsets, U32Bytes) + t[0])
    requires forall k :: 0 <= k < Checkpoints ==> Checked(s, offsets, t, k)
    ensures Decodes(s, offsets, t, List16Bytes(offsets, U32Bytes) + t[0], Decoded(w, w.npcs), NpcsRead(w.npcs))
  {
    var h := w.header;
    PrefixRoundTrip(w.prefix, List16Bytes(offsets, U32Bytes) + t[0]);
    NumberList16RoundTrip(offsets, t[0]);
    SwapKeepsFields(h);
    NameFits(h);
    TerrainParts(t, w.importance, h, w.tiles);
    TerrainPlane(t, w.importance, h, w.tiles);
    HoldingsParts(t, w.chests, w.signs, w.npcs);
    FixturesParts(t, w.entities, w.plates, w.rooms);
    JournalParts(t, w.bestiary, w.powers, Name(h), Id(h));
  }

  /** Reading a file laid out as a world is written. */
  lemma StagedDecode(s: Bytes, offsets: seq<u32>, t: seq<Bytes>, w: World)
    requires Storable(w) && Staged(t, w) && |offsets| == Checkpoints
    requires s == PrefixBytes(w.prefix) + (List16Bytes(offsets, U32Bytes) + t[0])
    requires forall k :: 0 <= k < Checkpoints ==> Checked(s, offsets, t, k)
    ensures ReadWorld(s) == match NpcsRead(w.npcs) case Ok(npcs) => Ok(Decoded(w, npcs)) case Err(e) => Err(e)
  {
    var d := Decoded(w, w.npcs);
    StagedParts(s, offsets, t, w);
    DecodeChain(s, offsets, t, List16Bytes(offsets, U32Bytes) + t[0], d, NpcsRead(w.npcs));
    if NpcsRead(w.npcs).Ok? {
      assert d.(npcs := NpcsRead(w.npcs).value) == Decoded(w, NpcsRead(w.npcs).value);
    }
  }

  /** Reading a written world: every checkpoint matches, and the decoder
      returns `Decoded(w, ...)` — or the NPC section's error, which aborts
      the whole read. */
  lemma WorldDecode(w: World)
    requires Decodable(w)
    ensures ReadWorld(WorldBytes(w))
         == match NpcsRead(w.npcs) case Ok(npcs) => Ok(Decoded(w, npcs)) case Err(e) => Err(e)
  {
    var t := WorldCuts(w);
    StagedDecode(WorldBytes(w), Offsets(Sections(w)), t, w);
  }
}
