/** The tile-entity section (decoded at src/read.rs:446-501, encoded at
    src/write.rs:427-473).

    Each entity is a kind tag (u8), its id (u32), x and y (u16), then a
    payload that depends on the kind.  An item inside a payload is stored
    as a u16 id, a u8 prefix and a u16 count.

    The two sides agree on the layout but not on everything it can hold:
    the encoder keeps only the low 16 bits of an item id, and the decoder
    turns a single held item with a zero count into an empty slot.
    `InfoDecode` states exactly what comes back, and `ReducedIff` says
    which entities survive the trip unchanged. */
module EntityFormat {
  import opened Structs
  import opened Wire
  import Arith

  // ---------------------------------------------------------------------
  // Decoder
  // ---------------------------------------------------------------------

  /** An item as stored in a tile entity: id (u16), prefix, count. */
  function ReadStored(s: Bytes): (r: Result<Parsed<Item>>)
    ensures r.Ok? ==> r.value.value.id < 0x1_0000 && |r.value.rest| < |s|
  {
    var id :- ReadU16(s);
    var prefix :- ReadU8(id.rest);
    var count :- ReadU16(prefix.rest);
    Ok(Parsed(Item(id.value, prefix.value, count.value), count.rest))
  }

  /** A single held item (item frame, weapon rack, food platter): the
      stored item, or nothing when its count is zero. */
  function ReadHeld(s: Bytes): (r: Result<Parsed<Option<Item>>>)
    ensures r.Ok? && r.value.value.Some? ==> r.value.value.value.count > 0
  {
    var item :- ReadStored(s);
    Ok(Parsed(if item.value.count > 0 then Some(item.value) else None, item.rest))
  }

  /** Slots `i` up to `n` of a masked rack: slot `k` holds a stored item
      when bit `k` of `mask` is set, and reads nothing otherwise. */
  function ReadSlots(s: Bytes, mask: nat, i: nat, n: nat): (r: Result<Parsed<seq<Option<Item>>>>)
    requires i <= n
    ensures r.Ok? ==> |r.value.value| == n - i
    decreases n - i
  {
    if i == n then Ok(Parsed([], s))
    else if Arith.Bit(mask, i) then
      var item :- ReadStored(s);
      var more :- ReadSlots(item.rest, mask, i + 1, n);
      Ok(Parsed([Some(item.value)] + more.value, more.rest))
    else
      var more :- ReadSlots(s, mask, i + 1, n);
      Ok(Parsed([None] + more.value, more.rest))
  }

  /** Slot `i + k` is filled exactly when bit `i + k` of the mask is set. */
  lemma {:induction false} SlotsMarked(s: Bytes, mask: nat, i: nat, n: nat)
    requires i <= n && ReadSlots(s, mask, i, n).Ok?
    ensures forall k :: 0 <= k < n - i
              ==> (ReadSlots(s, mask, i, n).value.value[k].Some? <==> Arith.Bit(mask, i + k))
    decreases n - i
  {
    if i < n {
      if Arith.Bit(mask, i) {
        SlotsMarked(ReadStored(s).value.rest, mask, i + 1, n);
      } else {
        SlotsMarked(s, mask, i + 1, n);
      }
    }
  }

  /** A target dummy's NPC slot. */
  function ReadDummy(s: Bytes): Result<Parsed<TileEntityInfo>>
  {
    var npc :- ReadU16(s);
    Ok(Parsed(TargetDummy(npc.value), npc.rest))
  }

  /** The entity of kind 1, 4 or 6 holding `held`. */
  function Holder(tag: byte, held: Option<Item>): TileEntityInfo
  {
    if tag == 1 then ItemFrame(held) else if tag == 4 then WeaponRack(held) else FoodPlatter(held)
  }

  /** An item frame, weapon rack or food platter: one held item. */
  function ReadHolder(tag: byte, s: Bytes): Result<Parsed<TileEntityInfo>>
  {
    var held :- ReadHeld(s);
    Ok(Parsed(Holder(tag, held.value), held.rest))
  }

  /** A logic sensor's check kind (u8) and state (bool). */
  function ReadSensor(s: Bytes): Result<Parsed<TileEntityInfo>>
  {
    var check :- ReadU8(s);
    var on :- ReadBool(check.rest);
    Ok(Parsed(LogicSensor(check.value, on.value), on.rest))
  }

  /** A u16 mask, then the 16 slots it marks. */
  function ReadMannequin(s: Bytes): Result<Parsed<TileEntityInfo>>
  {
    var mask :- ReadU16(s);
    var slots :- ReadSlots(mask.rest, mask.value, 0, 16);
    Ok(Parsed(Mannequin(slots.value), slots.rest))
  }

  /** A u8 mask, then the 4 slots it marks. */
  function ReadHatRack(s: Bytes): Result<Parsed<TileEntityInfo>>
  {
    var mask :- ReadU8(s);
    var slots :- ReadSlots(mask.rest, mask.value as nat, 0, 4);
    Ok(Parsed(HatRack(slots.value), slots.rest))
  }

  /** The payload of an entity of kind `tag`; an unknown kind aborts. */
  function ReadInfo(tag: byte, s: Bytes): (r: Result<Parsed<TileEntityInfo>>)
    ensures tag >= 8 ==> r == Err(UnknownTileEntity(tag))
  {
    if tag == 0 then ReadDummy(s)
    else if tag == 1 || tag == 4 || tag == 6 then ReadHolder(tag, s)
    else if tag == 2 then ReadSensor(s)
    else if tag == 3 then ReadMannequin(s)
    else if tag == 5 then ReadHatRack(s)
    else if tag == 7 then Ok(Parsed(Pylon, s))
    else Err(UnknownTileEntity(tag))
  }

  /** Kind, id, x, y, then the payload.  The kind is checked only after
      id, x and y have been read. */
  function ReadEntity(s: Bytes): Result<Parsed<TileEntity>>
  {
    var tag :- ReadU8(s);
    var id :- ReadU32(tag.rest);
    var x :- ReadU16(id.rest);
    var y :- ReadU16(x.rest);
    var info :- ReadInfo(tag.value, y.rest);
    Ok(Parsed(TileEntity(id.value, x.value, y.value, info.value), info.rest))
  }

  function ReadEntities(s: Bytes): Result<Parsed<seq<TileEntity>>>
  {
    ReadList32(s, ReadEntity)
  }

  // ---------------------------------------------------------------------
  // Encoder
  // ---------------------------------------------------------------------

  /** The kind tag the encoder writes for a payload. */
  function Tag(info: TileEntityInfo): (tag: byte)
    ensures tag < 8
  {
    match info
    case TargetDummy(_) => 0
    case ItemFrame(_) => 1
    case LogicSensor(_, _) => 2
    case Mannequin(_) => 3
    case WeaponRack(_) => 4
    case HatRack(_) => 5
    case FoodPlatter(_) => 6
    case Pylon => 7
  }

  /** `item.id as u16`, prefix, count. */
  function ItemBytes(item: Item): Bytes
  {
    U16Bytes(item.id % 0x1_0000) + [item.prefix] + U16Bytes(item.count)
  }

  /** A held item, or a u32 zero and a u8 zero for an empty slot. */
  function HeldBytes(held: Option<Item>): Bytes
  {
    match held
    case None => U32Bytes(0) + [0]
    case Some(item) => ItemBytes(item)
  }

  function IsPresent(slot: Option<Item>): bool
  {
    slot.Some?
  }

  /** The sum of `1 << i` over the occupied slots `i`. */
  function SlotMask(slots: seq<Option<Item>>): (mask: nat)
    ensures mask < Arith.Pow2(|slots|)
    ensures forall k: nat :: Arith.Bit(mask, k) == (k < |slots| && slots[k].Some?)
  {
    Arith.MaskBitsAll(MapSeq(slots, IsPresent));
    Arith.MaskSum(MapSeq(slots, IsPresent))
  }

  /** The occupied slots' items, in slot order. */
  function PresentBytes(slots: seq<Option<Item>>): Bytes
  {
    if slots == [] then []
    else
      (match slots[0] case None => [] case Some(item) => ItemBytes(item)) + PresentBytes(slots[1..])
  }

  function InfoBytes(info: TileEntityInfo): Bytes
  {
    match info
    case TargetDummy(npc) => U16Bytes(npc)
    case ItemFrame(held) => HeldBytes(held)
    case LogicSensor(check, on) => [check] + BoolBytes(on)
    case Mannequin(slots) =>
      Arith.Pow2Widths();
      U16Bytes(SlotMask(slots)) + PresentBytes(slots)
    case WeaponRack(held) => HeldBytes(held)
    case HatRack(hats) =>
      Arith.Pow2Widths();
      Arith.ByteValue(SlotMask(hats));
      [SlotMask(hats) as byte] + PresentBytes(hats)
    case FoodPlatter(held) => HeldBytes(held)
    case Pylon => []
  }

  function EntityBytes(entity: TileEntity): Bytes
  {
    [Tag(entity.info)] + U32Bytes(entity.id) + U16Bytes(entity.x) + U16Bytes(entity.y) + InfoBytes(entity.info)
  }

  /** `tile_entities.len() as u32`, then every entity. */
  function EntitiesBytes(entities: seq<TileEntity>): Bytes
  {
    List32Bytes(entities, EntityBytes)
  }

  // ---------------------------------------------------------------------
  // What the decoder makes of the encoder's bytes
  // ---------------------------------------------------------------------

  /** An item with its id cut to 16 bits. */
  function Stored(item: Item): Item
  {
    item.(id := item.id % 0x1_0000)
  }

  function StoredSlot(slot: Option<Item>): Option<Item>
  {
    match slot
    case None => None
    case Some(item) => Some(Stored(item))
  }

  /** A held item read back: its id cut to 16 bits, and gone if its count
      is zero. */
  function Held(held: Option<Item>): Option<Item>
  {
    match held
    case None => None
    case Some(item) => if item.count > 0 then Some(Stored(item)) else None
  }

  /** A payload as the decoder reads it back. */
  function Reduced(info: TileEntityInfo): TileEntityInfo
  {
    match info
    case ItemFrame(held) => ItemFrame(Held(held))
    case WeaponRack(held) => WeaponRack(Held(held))
    case FoodPlatter(held) => FoodPlatter(Held(held))
    case Mannequin(slots) => Mannequin(MapSeq(slots, StoredSlot))
    case HatRack(hats) => HatRack(MapSeq(hats, StoredSlot))
    case _ => info
  }

  function ReducedEntity(entity: TileEntity): TileEntity
  {
    entity.(info := Reduced(entity.info))
  }

  /** Every item id fits in 16 bits. */
  predicate NarrowSlots(slots: seq<Option<Item>>)
  {
    forall k :: 0 <= k < |slots| && slots[k].Some? ==> slots[k].value.id < 0x1_0000
  }

  /** A held item with a 16-bit id and a nonzero count, or none. */
  predicate KeptHeld(held: Option<Item>)
  {
    held.Some? ==> held.value.id < 0x1_0000 && held.value.count > 0
  }

  /** A payload the decoder reads back exactly as it was written. */
  predicate Kept(info: TileEntityInfo)
  {
    match info
    case ItemFrame(held) => KeptHeld(held)
    case WeaponRack(held) => KeptHeld(held)
    case FoodPlatter(held) => KeptHeld(held)
    case Mannequin(slots) => NarrowSlots(slots)
    case HatRack(hats) => NarrowSlots(hats)
    case _ => true
  }

  /** A stored item comes back with its id cut to 16 bits. */
  lemma StoredDecode(item: Item, rest: Bytes)
    ensures ReadStored(ItemBytes(item) + rest) == Ok(Parsed(Stored(item), rest))
  {
    var a, b, c := U16Bytes(item.id % 0x1_0000), [item.prefix], U16Bytes(item.count);
    assert ItemBytes(item) + rest == a + (b + (c + rest)) by {
      Assoc(a + b, c, rest);
      Assoc(a, b, c + rest);
    }
    U16RoundTrip(item.id % 0x1_0000, b + (c + rest));
    U8RoundTrip(item.prefix, c + rest);
    U16RoundTrip(item.count, rest);
  }

  /** An empty slot's five zero bytes are read as an item with count 0. */
  lemma EmptyDecode(rest: Bytes)
    ensures ReadStored(U32Bytes(0) + [0] + rest) == Ok(Parsed(Item(0, 0, 0), rest))
  {
    assert U32Bytes(0) == [0, 0, 0, 0];
    assert U32Bytes(0) + [0] + rest == U16Bytes(0) + ([0] + (U16Bytes(0) + rest));
    U16RoundTrip(0, [0] + (U16Bytes(0) + rest));
    U8RoundTrip(0, U16Bytes(0) + rest);
    U16RoundTrip(0, rest);
  }

  lemma HeldDecode(held: Option<Item>, rest: Bytes)
    ensures ReadHeld(HeldBytes(held) + rest) == Ok(Parsed(Held(held), rest))
  {
    match held
    case None => EmptyDecode(rest);
    case Some(item) => StoredDecode(item, rest);
  }

  /** Slots `k` onwards come back with their ids cut to 16 bits, when the
      mask's bits mark exactly the occupied slots. */
  lemma {:induction false} SlotsDecode(slots: seq<Option<Item>>, mask: nat, k: nat, rest: Bytes)
    requires k <= |slots|
    requires forall i :: k <= i < |slots| ==> (Arith.Bit(mask, i) <==> slots[i].Some?)
    ensures ReadSlots(PresentBytes(slots[k..]) + rest, mask, k, |slots|)
            == Ok(Parsed(MapSeq(slots[k..], StoredSlot), rest))
    decreases |slots| - k
  {
    if k < |slots| {
      var tail := slots[k + 1..];
      assert slots[k..][1..] == tail;
      assert slots[k..][0] == slots[k];
      SlotsDecode(slots, mask, k + 1, rest);
      assert MapSeq(slots[k..], StoredSlot) == [StoredSlot(slots[k])] + MapSeq(tail, StoredSlot);
      match slots[k]
      case None =>
        assert !Arith.Bit(mask, k);
        assert PresentBytes(slots[k..]) == PresentBytes(tail);
      case Some(item) =>
        assert Arith.Bit(mask, k);
        assert PresentBytes(slots[k..]) == ItemBytes(item) + PresentBytes(tail);
        Assoc(ItemBytes(item), PresentBytes(tail), rest);
        StoredDecode(item, PresentBytes(tail) + rest);
    } else {
      assert slots[k..] == [];
      assert PresentBytes(slots[k..]) + rest == rest;
    }
  }

  /** A rack's slots, behind their mask, come back with every id cut to
      16 bits. */
  lemma RackDecode(slots: seq<Option<Item>>, rest: Bytes)
    ensures ReadSlots(PresentBytes(slots) + rest, SlotMask(slots), 0, |slots|)
            == Ok(Parsed(MapSeq(slots, StoredSlot), rest))
  {
    assert slots[0..] == slots;
    SlotsDecode(slots, SlotMask(slots), 0, rest);
  }

  /** Every payload comes back as `Reduced` of itself. */
  lemma InfoDecode(info: TileEntityInfo, rest: Bytes)
    ensures ReadInfo(Tag(info), InfoBytes(info) + rest) == Ok(Parsed(Reduced(info), rest))
  {
    if info.Mannequin? {
      MannequinInfo(info, rest);
    } else if info.HatRack? {
      HatRackInfo(info, rest);
    } else if info.ItemFrame? || info.WeaponRack? || info.FoodPlatter? {
      HolderInfo(info, rest);
    } else {
      PlainInfo(info, rest);
    }
  }

  lemma PlainInfo(info: TileEntityInfo, rest: Bytes)
    requires info.TargetDummy? || info.LogicSensor? || info.Pylon?
    ensures ReadInfo(Tag(info), InfoBytes(info) + rest) == Ok(Parsed(Reduced(info), rest))
  {
    match info
    case TargetDummy(npc) =>
      U16RoundTrip(npc, rest);
    case LogicSensor(check, on) =>
      SensorDecode(check, on, rest);
    case Pylon =>
      assert InfoBytes(info) + rest == rest;
  }

  lemma HolderInfo(info: TileEntityInfo, rest: Bytes)
    requires info.ItemFrame? || info.WeaponRack? || info.FoodPlatter?
    ensures ReadInfo(Tag(info), InfoBytes(info) + rest) == Ok(Parsed(Reduced(info), rest))
  {
    HolderDecode(info, rest);
  }

  lemma MannequinInfo(info: TileEntityInfo, rest: Bytes)
    requires info.Mannequin?
    ensures ReadInfo(Tag(info), InfoBytes(info) + rest) == Ok(Parsed(Reduced(info), rest))
  {
    MannequinDecode(info.slots, rest);
  }

  lemma HatRackInfo(info: TileEntityInfo, rest: Bytes)
    requires info.HatRack?
    ensures ReadInfo(Tag(info), InfoBytes(info) + rest) == Ok(Parsed(Reduced(info), rest))
  {
    HatRackDecode(info.hats, rest);
  }

  /** The three single-item holders. */
  lemma HolderDecode(info: TileEntityInfo, rest: Bytes)
    requires info.ItemFrame? || info.WeaponRack? || info.FoodPlatter?
    ensures ReadHolder(Tag(info), InfoBytes(info) + rest) == Ok(Parsed(Reduced(info), rest))
  {
    HeldDecode(info.item, rest);
  }

  lemma SensorDecode(check: byte, on: bool, rest: Bytes)
    ensures ReadSensor(InfoBytes(LogicSensor(check, on)) + rest) == Ok(Parsed(LogicSensor(check, on), rest))
  {
    Assoc([check], BoolBytes(on), rest);
    U8RoundTrip(check, BoolBytes(on) + rest);
    BoolRoundTrip(on, rest);
  }

  lemma MannequinDecode(slots: MannequinSlots, rest: Bytes)
    ensures ReadMannequin(InfoBytes(Mannequin(slots)) + rest) == Ok(Parsed(Mannequin(MapSeq(slots, StoredSlot)), rest))
  {
    Arith.Pow2Widths();
    var mask := SlotMask(slots);
    var tail := PresentBytes(slots) + rest;
    var s := InfoBytes(Mannequin(slots)) + rest;
    assert s == U16Bytes(mask) + tail by {
      Assoc(U16Bytes(mask), PresentBytes(slots), rest);
    }
    U16RoundTrip(mask, tail);
    RackDecode(slots, rest);
    var decoded := MapSeq(slots, StoredSlot);
    assert ReadSlots(tail, mask, 0, 16) == Ok(Parsed(decoded, rest));
  }

  lemma HatRackDecode(hats: HatRackSlots, rest: Bytes)
    ensures ReadHatRack(InfoBytes(HatRack(hats)) + rest) == Ok(Parsed(HatRack(MapSeq(hats, StoredSlot)), rest))
  {
    Arith.Pow2Widths();
    var mask := SlotMask(hats);
    Arith.ByteValue(mask);
    Assoc([mask as byte], PresentBytes(hats), rest);
    U8RoundTrip(mask as byte, PresentBytes(hats) + rest);
    assert (mask as byte) as nat == mask;
    RackDecode(hats, rest);
  }

  /** An entity's kind, id and position come back unchanged, and its
      payload is whatever the payload decodes to. */
  lemma EntityFields(entity: TileEntity, rest: Bytes, info: TileEntityInfo)
    requires ReadInfo(Tag(entity.info), InfoBytes(entity.info) + rest) == Ok(Parsed(info, rest))
    ensures ReadEntity(EntityBytes(entity) + rest) == Ok(Parsed(entity.(info := info), rest))
  {
    var a, b, c, d, e := [Tag(entity.info)], U32Bytes(entity.id), U16Bytes(entity.x), U16Bytes(entity.y),
                         InfoBytes(entity.info);
    var s3 := d + (e + rest);
    var s2 := c + s3;
    var s1 := b + s2;
    assert EntityBytes(entity) + rest == a + s1 by {
      Assoc(a + b + c + d, e, rest);
      Assoc(a + b + c, d, e + rest);
      Assoc(a + b, c, s3);
      Assoc(a, b, s2);
    }
    U8RoundTrip(Tag(entity.info), s1);
    U32RoundTrip(entity.id, s2);
    U16RoundTrip(entity.x, s3);
    U16RoundTrip(entity.y, e + rest);
  }

  lemma EntityDecode(entity: TileEntity, rest: Bytes)
    ensures ReadEntity(EntityBytes(entity) + rest) == Ok(Parsed(ReducedEntity(entity), rest))
  {
    InfoDecode(entity.info, rest);
    EntityFields(entity, rest, Reduced(entity.info));
  }

  /** The whole section comes back entity by entity as `ReducedEntity`. */
  lemma EntitiesDecode(entities: seq<TileEntity>, rest: Bytes)
    requires |entities| < 0x1_0000_0000
    ensures ReadEntities(EntitiesBytes(entities) + rest) == Ok(Parsed(MapSeq(entities, ReducedEntity), rest))
  {
    forall e, r | e in entities
      ensures ReadEntity(EntityBytes(e) + r) == Ok(Parsed(ReducedEntity(e), r))
    {
      EntityDecode(e, r);
    }
    List32Decode(entities, EntityBytes, ReadEntity, ReducedEntity, rest);
  }

  lemma SlotsKept(slots: seq<Option<Item>>)
    ensures MapSeq(slots, StoredSlot) == slots <==> NarrowSlots(slots)
  {
    var stored := MapSeq(slots, StoredSlot);
    if NarrowSlots(slots) {
      forall k | 0 <= k < |slots|
        ensures stored[k] == slots[k]
      {
      }
    }
    if stored == slots {
      forall k | 0 <= k < |slots| && slots[k].Some?
        ensures slots[k].value.id < 0x1_0000
      {
        assert stored[k] == slots[k];
      }
    }
  }

  /** A payload survives the trip exactly when every item id fits in 16
      bits and no held item has a zero count. */
  lemma ReducedIff(info: TileEntityInfo)
    ensures Reduced(info) == info <==> Kept(info)
  {
    match info
    case Mannequin(slots) => SlotsKept(slots);
    case HatRack(hats) => SlotsKept(hats);
    case _ =>
  }

  /** A section of entities that all satisfy `Kept` comes back unchanged. */
  lemma EntitiesRoundTrip(entities: seq<TileEntity>, rest: Bytes)
    requires |entities| < 0x1_0000_0000
    requires forall e :: e in entities ==> Kept(e.info)
    ensures ReadEntities(EntitiesBytes(entities) + rest) == Ok(Parsed(entities, rest))
  {
    EntitiesDecode(entities, rest);
    var reduced := MapSeq(entities, ReducedEntity);
    forall k | 0 <= k < |entities|
      ensures reduced[k] == entities[k]
    {
      assert entities[k] in entities;
      ReducedIff(entities[k].info);
    }
    assert reduced == entities;
  }

  /** An item frame holding item 65537 is read back holding item 1. */
  lemma WideIdExample(rest: Bytes)
    ensures ReadInfo(1, InfoBytes(ItemFrame(Some(Item(65537, 0, 1)))) + rest)
            == Ok(Parsed(ItemFrame(Some(Item(1, 0, 1))), rest))
  {
    var item := Item(65537, 0, 1);
    HeldDecode(Some(item), rest);
    assert Held(Some(item)) == Some(Item(1, 0, 1));
  }

  /** A weapon rack holding an item with a zero count is read back
      empty. */
  lemma ZeroCountExample(item: Item, rest: Bytes)
    requires item.count == 0
    ensures ReadInfo(4, InfoBytes(WeaponRack(Some(item))) + rest) == Ok(Parsed(WeaponRack(None), rest))
  {
    HeldDecode(Some(item), rest);
  }

  /** An unknown kind aborts once id, x and y have been read. */
  lemma UnknownKind(tag: byte, id: u32, x: u16, y: u16, rest: Bytes)
    requires tag >= 8
    ensures ReadEntity([tag] + U32Bytes(id) + U16Bytes(x) + U16Bytes(y) + rest) == Err(UnknownTileEntity(tag))
  {
    var a, b, c, d := [tag], U32Bytes(id), U16Bytes(x), U16Bytes(y);
    var s2 := c + (d + rest);
    var s1 := b + s2;
    assert a + b + c + d + rest == a + s1 by {
      Assoc(a + b + c, d, rest);
      Assoc(a + b, c, d + rest);
      Assoc(a, b, s2);
    }
    U8RoundTrip(tag, s1);
    U32RoundTrip(id, s2);
    U16RoundTrip(x, d + rest);
    U16RoundTrip(y, rest);
  }
}
