/** `read` (src/read.rs:63-546): the prefix and the offsets table, then
    the parts in file order, each followed by the check of its offset, and
    at last the `Wld` built from them.  Each stage is proved against the
    stage of `WorldFormat.ReadWorld` it performs: it fails as that stage
    fails, or it leaves the rest of the decoder function to run on what it
    did not consume, with its parts filled in. */
module WorldReading {
  import opened Structs
  import opened Wire
  import opened HeaderFormat
  import opened MiscFormat
  import opened WorldFormat
  import opened TilePool
  import opened WorldState
  import opened Reading
  import opened TerrainReading
  import opened HoldingsReading
  import opened FixturesReading

  /** version, the seven bytes of the magic number, file type, revision
      and the favourite flag (src/read.rs:66-71). */
  method Prefix(r: Reader) returns (res: Result<HeaderFormat.Prefix>)
    modifies r`rest
    ensures Took(ReadPrefix(old(r.rest)), res, r.rest)
  {
    var version :- r.U32();
    var magic :- r.Take(7);
    var fileType :- r.U8();
    var revision :- r.U32();
    var favorite :- r.U64();
    return Ok(HeaderFormat.Prefix(version, magic, fileType, revision, favorite));
  }

  /** The importance table, the header and the tile plane, with the checks
      of offsets 0, 1 and 2 (src/read.rs:74-369). */
  method Terrain(r: Reader, pool: Pool, ghost s: Bytes, ghost w: World)
    returns (res: Result<(seq<bool>, seq<Value>, seq<nat>)>)
    requires pool.Valid() && r.originalLength == |s|
    modifies r`rest, pool
    ensures pool.Valid() && old(pool.entries) <= pool.entries
    ensures res.Err? ==> ReadTerrain(s, r.positions, old(r.rest), w) == Err(res.error)
    ensures res.Ok? ==> var (importance, header, hs) := res.value;
              && HasFields(header) && Handles(hs, |pool.entries|)
              && ReadTerrain(s, r.positions, old(r.rest), w)
                 == ReadHoldings(s, r.positions, r.rest,
                                 w.(importance := importance, header := header, tiles := CellsOf(hs, pool.entries)))
  {
    var importance :- Table(r);
    var at0 :- r.CheckPosition(0);
    var header :- Header(r);
    var at1 :- r.CheckPosition(1);
    var hs :- Plane(r, pool, importance, Width(header), Height(header));
    var at2 :- r.CheckPosition(2);
    return Ok((importance, header, hs));
  }

  /** Chests, signs and NPCs, with the checks of offsets 3, 4 and 5
      (src/read.rs:371-440). */
  method Holdings(r: Reader, ghost s: Bytes, ghost w: World)
    returns (res: Result<(seq<Chest>, seq<Sign>, seq<Npc>)>)
    requires HasFields(w.header) && r.originalLength == |s|
    modifies r`rest
    ensures res.Err? ==> ReadHoldings(s, r.positions, old(r.rest), w) == Err(res.error)
    ensures res.Ok? ==> var (chests, signs, npcs) := res.value;
              ReadHoldings(s, r.positions, old(r.rest), w)
              == ReadFixtures(s, r.positions, r.rest, w.(chests := chests, signs := signs, npcs := npcs))
  {
    var chests :- Chests(r);
    var at3 :- r.CheckPosition(3);
    var signs :- Signs(r);
    var at4 :- r.CheckPosition(4);
    var npcs :- Npcs(r);
    var at5 :- r.CheckPosition(5);
    return Ok((chests, signs, npcs));
  }

  /** Tile entities, pressure plates and NPC rooms, with the checks of
      offsets 6, 7 and 8 (src/read.rs:440-513). */
  method Fixtures(r: Reader, ghost s: Bytes, ghost w: World)
    returns (res: Result<(seq<TileEntity>, seq<(u32, u32)>, seq<NpcRoom>)>)
    requires HasFields(w.header) && r.originalLength == |s|
    modifies r`rest
    ensures res.Err? ==> ReadFixtures(s, r.positions, old(r.rest), w) == Err(res.error)
    ensures res.Ok? ==> var (entities, plates, rooms) := res.value;
              ReadFixtures(s, r.positions, old(r.rest), w)
              == ReadJournal(s, r.positions, r.rest, w.(entities := entities, plates := plates, rooms := rooms))
  {
    var entities :- Entities(r);
    var at6 :- r.CheckPosition(6);
    var plates :- Plates(r);
    var at7 :- r.CheckPosition(7);
    var rooms :- Rooms(r);
    var at8 :- r.CheckPosition(8);
    return Ok((entities, plates, rooms));
  }

  /** The bestiary and the creative powers, with the checks of offsets 9
      and 10, then the trailer against the header's name and id
      (src/read.rs:513-538). */
  method Journal(r: Reader, header: seq<Value>, ghost s: Bytes, ghost w: World)
    returns (res: Result<(MiscFormat.Bestiary, seq<CreativePower>)>)
    requires HasFields(header) && w.header == header && r.originalLength == |s|
    modifies r`rest
    ensures res.Err? ==> ReadJournal(s, r.positions, old(r.rest), w) == Err(res.error)
    ensures res.Ok? ==> var (bestiary, powers) := res.value;
              ReadJournal(s, r.positions, old(r.rest), w) == Ok(w.(bestiary := bestiary, powers := powers))
  {
    var bestiary :- FixturesReading.Bestiary(r);
    var at9 :- r.CheckPosition(9);
    var powers :- Powers(r);
    var at10 :- r.CheckPosition(10);
    var trailer :- Trailer(r, Name(header), HeaderFormat.Id(header));
    return Ok((bestiary, powers));
  }

  /** `read(buffer)`: the world the buffer holds, or the error at which the
      source would panic.  The world read is the one `ReadWorld` describes,
      its plane drawn from a fresh interning pool. */
  method Read(buffer: Bytes) returns (res: Result<Wld>)
    ensures res.Err? ==> ReadWorld(buffer) == Err(res.error)
    ensures res.Ok? ==> && fresh(res.value) && fresh(res.value.tileSet) && res.value.Valid()
                        && ReadWorld(buffer) == Ok(res.value.Snapshot())
  {
    var r := new Reader(buffer);
    var prefix :- Prefix(r);
    var count :- r.U16();
    var positions :- r.U32s(count);
    r.positions := positions;
    res := Parts(r, prefix, buffer);
  }

  /** Everything after the offsets table: the four stages in turn, then
      the `Wld` built from the parts they read. */
  method Parts(r: Reader, prefix: HeaderFormat.Prefix, ghost s: Bytes) returns (res: Result<Wld>)
    requires r.originalLength == |s|
    modifies r`rest
    ensures res.Err? ==> ReadTerrain(s, r.positions, old(r.rest), Blank(prefix)) == Err(res.error)
    ensures res.Ok? ==> && fresh(res.value) && fresh(res.value.tileSet) && res.value.Valid()
                        && ReadTerrain(s, r.positions, old(r.rest), Blank(prefix)) == Ok(res.value.Snapshot())
  {
    ghost var w0 := Blank(prefix);
    var pool := new Pool();
    var terrain :- Terrain(r, pool, s, w0);
    var (importance, header, hs) := terrain;
    ghost var w1 := w0.(importance := importance, header := header, tiles := CellsOf(hs, pool.entries));
    var holdings :- Holdings(r, s, w1);
    var (chests, signs, npcs) := holdings;
    ghost var w2 := w1.(chests := chests, signs := signs, npcs := npcs);
    var fixtures :- Fixtures(r, s, w2);
    var (entities, plates, rooms) := fixtures;
    ghost var w3 := w2.(entities := entities, plates := plates, rooms := rooms);
    var journal :- Journal(r, header, s, w3);
    var (bestiary, powers) := journal;
    var wld := new Wld.Of(prefix, importance, header, pool, hs, chests, signs, npcs, entities,
                          plates, rooms, bestiary, powers);
    assert wld.Cells() == CellsOf(hs, pool.entries);
    return Ok(wld);
  }
}
