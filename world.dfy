/** The `Wld` aggregate (src/wld.rs:6-231): the world as the program holds
    it in memory.  The tile plane is a column-major vector of shared tiles
    drawn from an interning pool; here a cell holds a handle into that
    pool.  The 181 header scalars live in one schema-ordered vector, as the
    codec reads and writes them. */
module WorldState {
  import opened Structs
  import opened Wire
  import opened HeaderFormat
  import opened MiscFormat
  import opened WorldFormat
  import opened TilePool
  import Arith

  /** Header fields `_new` sets to something other than zero, false or empty. */
  const GenVersionField := 2
  const RightField := 6
  const BottomField := 8
  const IsDayField := 44

  /** The zero of each kind: 0, false, the empty string or the empty list. */
  function Zero(k: Kind): (v: Value)
    ensures Representable(k, v)
  {
    match k
    case KU8 => VU8(0)
    case KBool => VBool(false)
    case KU16 => VU16(0)
    case KU32 => VU32(0)
    case KU64 => VU64(0)
    case KU128 => VU128(0)
    case KF32 => VF32(0)
    case KF64 => VF64(0)
    case KString => VString([])
    case KStrings => VStrings([])
    case KU32sByU16 | KU32s | KTreeTop => VU32s([])
  }

  /** The kinds of the fields `_new` sets. */
  lemma FreshKinds()
    ensures HeaderSchema[GenVersionField] == KU64 && HeaderSchema[RightField] == KU32
    ensures HeaderSchema[BottomField] == KU32 && HeaderSchema[IsDayField] == KBool
    ensures HeaderSchema[HeightField] == KU32 && HeaderSchema[WidthField] == KU32
    ensures HeaderSchema[NameField] == KString && HeaderSchema[IdField] == KU32
  {
  }

  /** Field `i` of the header `_new` builds (src/wld.rs:207): generator
      version 279, right and bottom edges at 1600, a 100 by 100 plane,
      daytime, and zero everywhere else. */
  function FreshField(i: nat): (v: Value)
    requires i < |HeaderSchema|
    ensures Representable(HeaderSchema[i], v)
  {
    FreshKinds();
    if i == GenVersionField then VU64(279)
    else if i == RightField || i == BottomField then VU32(1600)
    else if i == HeightField || i == WidthField then VU32(100)
    else if i == IsDayField then VBool(true)
    else Zero(HeaderSchema[i])
  }

  /** The header `_new` builds, field by field. */
  function FreshHeader(): (h: seq<Value>)
    ensures RepresentableHeader(h) && HasFields(h)
  {
    var h := seq(|HeaderSchema|, i requires 0 <= i < |HeaderSchema| => FreshField(i));
    FreshRepresentable(h);
    h
  }

  /** A header holding `FreshField(i)` in every field `i` matches the
      schema. */
  lemma FreshRepresentable(h: seq<Value>)
    requires |h| == |HeaderSchema| && forall i :: 0 <= i < |h| ==> h[i] == FreshField(i)
    ensures RepresentableHeader(h) && HasFields(h)
  {
    assert WellFormedHeader(h) by {
      forall i | 0 <= i < |h| ensures Fits(HeaderSchema[i], h[i]) {
        assert Representable(HeaderSchema[i], FreshField(i));
      }
    }
    WellFormedFields(h);
  }

  /** The fresh header describes a 100 by 100 plane, with an empty world
      name and id 0. */
  lemma FreshFields()
    ensures Width(FreshHeader()) == 100 && Height(FreshHeader()) == 100
    ensures Name(FreshHeader()) == [] && Id(FreshHeader()) == 0
  {
    var h := FreshHeader();
    FreshKinds();
    assert h[WidthField] == FreshField(WidthField) && h[HeightField] == FreshField(HeightField);
    assert h[NameField] == FreshField(NameField) && h[IdField] == FreshField(IdField);
  }

  /** The cell of column `x`, row `y` in a plane `height` cells tall:
      `set_block` addresses `tiles` column-major. */
  function CellIndex(x: nat, y: nat, height: nat): nat
  {
    x * height + y
  }

  /** Pointing one handle at an entry of a grown pool keeps every handle
      inside the pool. */
  lemma Retarget(handles: seq<nat>, entries: seq<Tile>, grown: seq<Tile>, at: nat, p: nat, updated: seq<nat>)
    requires forall i :: 0 <= i < |handles| ==> handles[i] < |entries|
    requires entries <= grown && at < |handles| && p < |grown| && updated == handles[at := p]
    ensures forall i :: 0 <= i < |updated| ==> updated[i] < |grown|
  {
  }

  /** Pointing handle `at` at entry `p` of a grown pool changes cell `at`
      to that entry and no other cell. */
  lemma Recells(handles: seq<nat>, entries: seq<Tile>, grown: seq<Tile>, at: nat, p: nat, updated: seq<nat>,
                cells: seq<Tile>, regrown: seq<Tile>)
    requires entries <= grown && at < |handles| && p < |grown| && updated == handles[at := p]
    requires |cells| == |handles|
    requires forall i :: 0 <= i < |handles| ==> handles[i] < |entries| && cells[i] == entries[handles[i]]
    requires |regrown| == |handles|
    requires forall i :: 0 <= i < |updated| ==> regrown[i] == grown[updated[i]]
    ensures regrown == cells[at := grown[p]]
  {
    assert forall i :: 0 <= i < |handles| ==> regrown[i] == cells[at := grown[p]][i];
  }

  class Wld {
    var prefix: Prefix
    var importance: seq<bool>
    var header: seq<Value>
    /** `tile_set` */
    var tileSet: Pool
    /** `tiles`: one handle into `tileSet` per cell, column by column. */
    var tiles: seq<nat>
    var chests: seq<Chest>
    var signs: seq<Sign>
    var npcs: seq<Npc>
    var entities: seq<TileEntity>
    var plates: seq<(u32, u32)>
    var rooms: seq<NpcRoom>
    var bestiary: Bestiary
    var powers: seq<CreativePower>

    /** The pool is consistent and every cell names a pooled tile. */
    ghost predicate Valid()
      reads this, tileSet
    {
      tileSet.Valid() && forall i :: 0 <= i < |tiles| ==> tiles[i] < |tileSet.entries|
    }

    /** The tile in every cell. */
    function Cells(): (cells: seq<Tile>)
      reads this, tileSet
      requires Valid()
      ensures |cells| == |tiles|
      ensures forall i :: 0 <= i < |tiles| ==> cells[i] == tileSet.entries[tiles[i]]
    {
      var handles, entries := tiles, tileSet.entries;
      seq(|handles|, i requires 0 <= i < |handles| => entries[handles[i]])
    }

    /** The world as a value: what the codec reads and writes. */
    function Snapshot(): (w: World)
      reads this, tileSet
      requires Valid()
      ensures w.tiles == Cells() && w.header == header && w.importance == importance
    {
      World(prefix, importance, header, Cells(), chests, signs, npcs, entities, plates, rooms, bestiary, powers)
    }

    /** `_new` (src/wld.rs:203-210): a pool holding only the empty tile, a
        single cell sharing it, and a header declaring a 100 by 100 plane.
        One cell is not the 10000 the header declares, so the fresh world
        is not `Writable`. */
    constructor New()
      ensures Valid() && fresh(tileSet)
      ensures tileSet.entries == [EmptyTile] && tiles == [0] && Cells() == [EmptyTile]
      ensures prefix == Prefix(279, seq(7, _ => 0), 2, 1, 0)
      ensures header == FreshHeader() && importance == []
      ensures chests == [] && signs == [] && npcs == [] && entities == []
      ensures plates == [] && rooms == [] && bestiary == Bestiary([], [], []) && powers == []
      ensures !Writable(Snapshot())
    {
      var pool := new Pool();
      var h := pool.GetOrInsert(EmptyTile);
      tileSet := pool;
      tiles := [h];
      prefix := Prefix(279, seq(7, _ => 0), 2, 1, 0);
      importance := [];
      header := FreshHeader();
      chests := [];
      signs := [];
      npcs := [];
      entities := [];
      plates := [];
      rooms := [];
      bestiary := Bestiary([], [], []);
      powers := [];
      new;
      FreshFields();
      assert Width(header) * Height(header) == 10000;
    }

    /** The `Wld { .. }` literal that ends `read` (src/read.rs:541-546):
        every field as given. */
    constructor Of(prefix: Prefix, importance: seq<bool>, header: seq<Value>, tileSet: Pool, tiles: seq<nat>,
                   chests: seq<Chest>, signs: seq<Sign>, npcs: seq<Npc>, entities: seq<TileEntity>,
                   plates: seq<(u32, u32)>, rooms: seq<NpcRoom>, bestiary: Bestiary, powers: seq<CreativePower>)
      ensures this.prefix == prefix && this.importance == importance && this.header == header
      ensures this.tileSet == tileSet && this.tiles == tiles
      ensures this.chests == chests && this.signs == signs && this.npcs == npcs && this.entities == entities
      ensures this.plates == plates && this.rooms == rooms && this.bestiary == bestiary && this.powers == powers
    {
      this.prefix := prefix;
      this.importance := importance;
      this.header := header;
      this.tileSet := tileSet;
      this.tiles := tiles;
      this.chests := chests;
      this.signs := signs;
      this.npcs := npcs;
      this.entities := entities;
      this.plates := plates;
      this.rooms := rooms;
      this.bestiary := bestiary;
      this.powers := powers;
    }

    /** `set_block` (src/wld.rs:227-230): cell `x * height + y` now holds the
        pooled tile equal to `t`, every other cell keeps its tile, and the
        pool grows by at most `t`.  The source indexes `tiles` unchecked and
        computes the index in 32 bits, panicking on overflow. */
    method SetBlock(x: u32, y: u32, t: Tile)
      requires Valid() && HasFields(header)
      requires CellIndex(x, y, Height(header)) < 0x1_0000_0000
      requires CellIndex(x, y, Height(header)) < |tiles|
      modifies this, tileSet
      ensures tileSet == old(tileSet) && Valid()
      ensures prefix == old(prefix) && importance == old(importance) && header == old(header)
      ensures chests == old(chests) && signs == old(signs) && npcs == old(npcs) && entities == old(entities)
      ensures plates == old(plates) && rooms == old(rooms) && bestiary == old(bestiary) && powers == old(powers)
      ensures var at := CellIndex(x, y, Height(header));
              && |tiles| == old(|tiles|)
              && Cells() == old(Cells())[at := t]
              && tileSet.entries[tiles[at]] == t
              && (forall i :: 0 <= i < |tiles| && i != at ==> tiles[i] == old(tiles[i]))
      ensures old(tileSet.entries) <= tileSet.entries && |tileSet.entries| <= old(|tileSet.entries|) + 1
      ensures old(t in tileSet.entries) ==> tileSet.entries == old(tileSet.entries)
    {
      var p := tileSet.GetOrInsert(t);
      var at := CellIndex(x, y, Height(header));
      tiles := tiles[at := p];
      Retarget(old(tiles), old(tileSet.entries), tileSet.entries, at, p, tiles);
      Recells(old(tiles), old(tileSet.entries), tileSet.entries, at, p, tiles, old(Cells()), Cells());
    }

    /** With `y` below the height, cell `x * height + y` is row `y` of
        column `x`: `set_block` addresses the plane column-major, and two
        different coordinates inside the plane never share a cell. */
    lemma CellOf(x: nat, y: nat, x': nat, y': nat)
      requires HasFields(header) && y < Height(header) && y' < Height(header)
      requires CellIndex(x, y, Height(header)) == CellIndex(x', y', Height(header))
      ensures x == x' && y == y'
    {
      Arith.ColumnMajor(x, Height(header), y);
      Arith.ColumnMajor(x', Height(header), y');
    }
  }
}
