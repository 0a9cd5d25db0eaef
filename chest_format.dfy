/** The chest and sign sections (decoded at src/read.rs:368-395, encoded
    at src/write.rs:355-379).

    The two sides disagree on the order of a chest item's fields: the
    decoder reads the id (u32) before the prefix (u8), the encoder writes
    the prefix before the id.  Read back, an item's id is assembled from
    its prefix and the low three bytes of its id, and its prefix is the
    id's top byte; `SlotSwap` states this and `SlotSwapExample` shows it
    on one item. */
module ChestFormat {
  import opened Structs
  import opened Wire

  /** Every chest has exactly this many slots on the wire. */
  const SlotsPerChest := 40

  // ---------------------------------------------------------------------
  // Decoder
  // ---------------------------------------------------------------------

  /** A u16 count; a nonzero count is followed by the id (u32) and the
      prefix (u8). */
  function ReadSlot(s: Bytes): (r: Result<Parsed<Option<Item>>>)
    ensures r.Ok? ==> (r.value.value.Some? ==> r.value.value.value.count > 0)
  {
    var count :- ReadU16(s);
    if count.value > 0 then
      var id :- ReadU32(count.rest);
      var prefix :- ReadU8(id.rest);
      Ok(Parsed(Some(Item(id.value, prefix.value, count.value)), prefix.rest))
    else
      Ok(Parsed(None, count.rest))
  }

  /** x, y, name, then the 40 slots. */
  function ReadChest(s: Bytes): (r: Result<Parsed<Chest>>)
    ensures r.Ok? ==> |r.value.value.items| == SlotsPerChest
  {
    var x :- ReadU32(s);
    var y :- ReadU32(x.rest);
    var name :- ReadString(y.rest);
    var items :- ReadMany(name.rest, SlotsPerChest, ReadSlot);
    Ok(Parsed(Chest(name.value, x.value, y.value, items.value), items.rest))
  }

  /** The number of chests, the slot count (which must be 40), then the
      chests. */
  function ReadChests(s: Bytes): (r: Result<Parsed<seq<Chest>>>)
  {
    var num :- ReadU16(s);
    var slots :- ReadU16(num.rest);
    if slots.value != SlotsPerChest then Err(ChestSlots(slots.value))
    else ReadMany(slots.rest, num.value, ReadChest)
  }

  /** text, x, y. */
  function ReadSign(s: Bytes): Result<Parsed<Sign>>
  {
    var text :- ReadString(s);
    var x :- ReadU32(text.rest);
    var y :- ReadU32(x.rest);
    Ok(Parsed(Sign(x.value, y.value, text.value), y.rest))
  }

  function ReadSigns(s: Bytes): Result<Parsed<seq<Sign>>>
  {
    ReadList16(s, ReadSign)
  }

  // ---------------------------------------------------------------------
  // Encoder
  // ---------------------------------------------------------------------

  /** count, prefix, id for an item; a zero count for an empty slot. */
  function SlotBytes(slot: Option<Item>): Bytes
  {
    match slot
    case None => U16Bytes(0)
    case Some(item) => U16Bytes(item.count) + [item.prefix] + U32Bytes(item.id)
  }

  function ChestBytes(chest: Chest): Bytes
  {
    U32Bytes(chest.x) + U32Bytes(chest.y) + StringBytes(chest.name) + ManyBytes(chest.items, SlotBytes)
  }

  /** `chests.len() as u16`, the constant 40, then every chest. */
  function ChestsBytes(chests: seq<Chest>): Bytes
  {
    U16Bytes(|chests| % 0x1_0000) + U16Bytes(SlotsPerChest) + ManyBytes(chests, ChestBytes)
  }

  function SignBytes(sign: Sign): Bytes
  {
    StringBytes(sign.text) + U32Bytes(sign.x) + U32Bytes(sign.y)
  }

  function SignsBytes(signs: seq<Sign>): Bytes
  {
    List16Bytes(signs, SignBytes)
  }

  // ---------------------------------------------------------------------
  // What the decoder makes of the encoder's bytes
  // ---------------------------------------------------------------------

  /** The top byte of a 32-bit number. */
  function HighByte(n: u32): byte
  {
    U32Bytes(n)[3]
  }

  /** An item as the decoder reads it back: the id is the written prefix
      plus 256 times the low three bytes of the written id, the prefix is
      the written id's top byte. */
  function Swapped(item: Item): (swapped: Item)
    ensures swapped.count == item.count
  {
    Item(item.prefix as nat + 256 * (item.id % 0x100_0000), HighByte(item.id), item.count)
  }

  function SwappedSlot(slot: Option<Item>): Option<Item>
  {
    match slot
    case None => None
    case Some(item) => Some(Swapped(item))
  }

  function SwappedChest(chest: Chest): Chest
  {
    chest.(items := MapSeq(chest.items, SwappedSlot))
  }

  /** A chest the encoder writes in a shape the decoder can follow: 40
      slots, a name shorter than 256 bytes, and no item with a zero
      count (which would be read back as an empty slot followed by five
      stray bytes). */
  predicate WritableChest(chest: Chest)
  {
    && |chest.items| == SlotsPerChest
    && |chest.name| < 256
    && forall slot :: slot in chest.items && slot.Some? ==> slot.value.count > 0
  }

  /** A u32 whose first byte is `low` and whose other three bytes are the
      low three of `n`, decoded. */
  lemma ShiftedU32(low: byte, n: u32, rest: Bytes)
    ensures ReadU32([low] + U32Bytes(n) + rest)
            == Ok(Parsed(low as nat + 256 * (n % 0x100_0000), [HighByte(n)] + rest))
  {
    var s := [low] + U32Bytes(n) + rest;
    var e := U32Bytes(n);
    assert s[..4] == [low] + e[..3];
    assert s[4..] == [HighByte(n)] + rest;
    LeBytesPrefix(n, 4, 3);
    LittleEndianMod(n, 3);
    assert (s[..4])[1..] == e[..3];
  }

  /** An item with a nonzero count comes back with its fields exchanged;
      an empty slot comes back empty. */
  lemma SlotSwap(slot: Option<Item>, rest: Bytes)
    requires slot.Some? ==> slot.value.count > 0
    ensures ReadSlot(SlotBytes(slot) + rest) == Ok(Parsed(SwappedSlot(slot), rest))
  {
    match slot
    case None =>
      U16RoundTrip(0, rest);
    case Some(item) =>
      var tail := [item.prefix] + U32Bytes(item.id) + rest;
      assert SlotBytes(slot) + rest == U16Bytes(item.count) + tail by {
        Assoc(U16Bytes(item.count) + [item.prefix], U32Bytes(item.id), rest);
        Assoc(U16Bytes(item.count), [item.prefix], U32Bytes(item.id) + rest);
        Assoc([item.prefix], U32Bytes(item.id), rest);
      }
      U16RoundTrip(item.count, tail);
      ShiftedU32(item.prefix, item.id, rest);
      U8RoundTrip(HighByte(item.id), rest);
  }

  /** The item with id 1 and prefix 0 is read back with id 256. */
  lemma SlotSwapExample(rest: Bytes)
    ensures ReadSlot(SlotBytes(Some(Item(1, 0, 1))) + rest) == Ok(Parsed(Some(Item(256, 0, 1)), rest))
  {
    SlotSwap(Some(Item(1, 0, 1)), rest);
    assert U32Bytes(1) == [1, 0, 0, 0];
  }

  /** A chest's fixed fields come back unchanged, and its slots are
      whatever the slot list decodes to. */
  lemma ChestFields(chest: Chest, rest: Bytes, items: seq<Option<Item>>)
    requires |chest.name| < 256
    requires ReadMany(ManyBytes(chest.items, SlotBytes) + rest, SlotsPerChest, ReadSlot) == Ok(Parsed(items, rest))
    ensures ReadChest(ChestBytes(chest) + rest) == Ok(Parsed(chest.(items := items), rest))
  {
    ChestOpened(chest, rest);
  }

  /** Past x, y and the name, the decoder reads 40 slots from the written
      slot bytes, however many the chest has. */
  lemma ChestOpened(chest: Chest, rest: Bytes)
    requires |chest.name| < 256
    ensures ReadChest(ChestBytes(chest) + rest)
            == (var items :- ReadMany(ManyBytes(chest.items, SlotBytes) + rest, SlotsPerChest, ReadSlot);
                Ok(Parsed(chest.(items := items.value), items.rest)))
  {
    var slots := ManyBytes(chest.items, SlotBytes) + rest;
    var named := StringBytes(chest.name) + slots;
    var after := U32Bytes(chest.y) + named;
    var a, b, c, d := U32Bytes(chest.x), U32Bytes(chest.y), StringBytes(chest.name), ManyBytes(chest.items, SlotBytes);
    assert ChestBytes(chest) + rest == a + after by {
      Assoc(a + b + c, d, rest);
      Assoc(a + b, c, d + rest);
      Assoc(a, b, c + (d + rest));
    }
    U32RoundTrip(chest.x, after);
    U32RoundTrip(chest.y, named);
    StringRoundTrip(chest.name, slots);
  }

  /** An item with a zero count is written as seven bytes, but the decoder
      stops after the count: it reads an empty slot and leaves the prefix
      and the id to be read as the next slot. */
  lemma ZeroCountSlot(id: u32, prefix: byte, rest: Bytes)
    ensures ReadSlot(SlotBytes(Some(Item(id, prefix, 0))) + rest)
            == Ok(Parsed(None, [prefix] + U32Bytes(id) + rest))
  {
    var tail := [prefix] + U32Bytes(id) + rest;
    assert SlotBytes(Some(Item(id, prefix, 0))) + rest == U16Bytes(0) + tail by {
      Assoc(U16Bytes(0) + [prefix], U32Bytes(id), rest);
      Assoc(U16Bytes(0), [prefix], U32Bytes(id) + rest);
      Assoc([prefix], U32Bytes(id), rest);
    }
    U16RoundTrip(0, tail);
  }

  /** Hence a chest whose first slot holds an item with a zero count is
      not read back as the chest with its items' fields exchanged: its
      first slot comes back empty. */
  lemma ZeroCountChest(chest: Chest, rest: Bytes)
    requires |chest.name| < 256 && |chest.items| > 0
    requires chest.items[0].Some? && chest.items[0].value.count == 0
    ensures ReadChest(ChestBytes(chest) + rest).Ok? ==> ReadChest(ChestBytes(chest) + rest).value.value.items[0] == None
    ensures ReadChest(ChestBytes(chest) + rest) != Ok(Parsed(SwappedChest(chest), rest))
  {
    var Item(id, prefix, _) := chest.items[0].value;
    var tail := ManyBytes(chest.items[1..], SlotBytes) + rest;
    Assoc(SlotBytes(chest.items[0]), ManyBytes(chest.items[1..], SlotBytes), rest);
    assert ManyBytes(chest.items, SlotBytes) + rest == SlotBytes(chest.items[0]) + tail;
    ZeroCountSlot(id, prefix, tail);
    ChestOpened(chest, rest);
  }

  /** A chest with more than 40 slots: the decoder reads the first 40 and
      leaves the bytes of the others to whatever is read next. */
  lemma ExtraSlots(chest: Chest, rest: Bytes)
    requires |chest.name| < 256 && |chest.items| > SlotsPerChest
    requires forall slot :: slot in chest.items && slot.Some? ==> slot.value.count > 0
    ensures ReadChest(ChestBytes(chest) + rest)
            == Ok(Parsed(SwappedChest(chest.(items := chest.items[..SlotsPerChest])),
                         ManyBytes(chest.items[SlotsPerChest..], SlotBytes) + rest))
  {
    var first, extra := chest.items[..SlotsPerChest], chest.items[SlotsPerChest..];
    ManyBytesSplit(chest.items, SlotBytes, SlotsPerChest);
    Assoc(ManyBytes(first, SlotBytes), ManyBytes(extra, SlotBytes), rest);
    assert forall slot :: slot in first ==> slot in chest.items;
    SlotsSwap(first, ManyBytes(extra, SlotBytes) + rest);
    ChestOpened(chest, rest);
  }

  lemma ChestSwap(chest: Chest, rest: Bytes)
    requires WritableChest(chest)
    ensures ReadChest(ChestBytes(chest) + rest) == Ok(Parsed(SwappedChest(chest), rest))
  {
    SlotsSwap(chest.items, rest);
    ChestFields(chest, rest, MapSeq(chest.items, SwappedSlot));
  }

  lemma SlotsSwap(items: seq<Option<Item>>, rest: Bytes)
    requires forall slot :: slot in items && slot.Some? ==> slot.value.count > 0
    ensures ReadMany(ManyBytes(items, SlotBytes) + rest, |items|, ReadSlot)
            == Ok(Parsed(MapSeq(items, SwappedSlot), rest))
  {
    forall slot, r | slot in items
      ensures ReadSlot(SlotBytes(slot) + r) == Ok(Parsed(SwappedSlot(slot), r))
    {
      SlotSwap(slot, r);
    }
    ManyDecode(items, SlotBytes, ReadSlot, SwappedSlot, rest);
  }

  lemma ChestListSwap(chests: seq<Chest>, rest: Bytes)
    requires forall c :: c in chests ==> WritableChest(c)
    ensures ReadMany(ManyBytes(chests, ChestBytes) + rest, |chests|, ReadChest)
            == Ok(Parsed(MapSeq(chests, SwappedChest), rest))
  {
    forall c, r | c in chests
      ensures ReadChest(ChestBytes(c) + r) == Ok(Parsed(SwappedChest(c), r))
    {
      ChestSwap(c, r);
    }
    ManyDecode(chests, ChestBytes, ReadChest, SwappedChest, rest);
  }

  /** The section's counts lead the decoder straight to the chests. */
  lemma ChestsCounted(chests: seq<Chest>, rest: Bytes)
    requires |chests| < 0x1_0000
    ensures ReadChests(ChestsBytes(chests) + rest)
            == ReadMany(ManyBytes(chests, ChestBytes) + rest, |chests|, ReadChest)
  {
    var body := ManyBytes(chests, ChestBytes) + rest;
    var counted := U16Bytes(SlotsPerChest) + body;
    assert |chests| % 0x1_0000 == |chests|;
    assert ChestsBytes(chests) + rest == U16Bytes(|chests|) + counted by {
      Assoc(U16Bytes(|chests|) + U16Bytes(SlotsPerChest), ManyBytes(chests, ChestBytes), rest);
      Assoc(U16Bytes(|chests|), U16Bytes(SlotsPerChest), body);
    }
    U16RoundTrip(|chests|, counted);
    U16RoundTrip(SlotsPerChest, body);
  }

  /** The chest section as the encoder writes it decodes to the same
      chests with every item's fields exchanged. */
  lemma ChestsSwap(chests: seq<Chest>, rest: Bytes)
    requires |chests| < 0x1_0000
    requires forall c :: c in chests ==> WritableChest(c)
    ensures ReadChests(ChestsBytes(chests) + rest) == Ok(Parsed(MapSeq(chests, SwappedChest), rest))
  {
    ChestsCounted(chests, rest);
    ChestListSwap(chests, rest);
  }

  /** A slot count other than 40 is refused. */
  lemma WrongSlotCount(num: u16, slots: u16, rest: Bytes)
    requires slots != SlotsPerChest
    ensures ReadChests(U16Bytes(num) + U16Bytes(slots) + rest) == Err(ChestSlots(slots))
  {
    assert U16Bytes(num) + U16Bytes(slots) + rest == U16Bytes(num) + (U16Bytes(slots) + rest);
    U16RoundTrip(num, U16Bytes(slots) + rest);
    U16RoundTrip(slots, rest);
  }

  lemma SignRoundTrip(sign: Sign, rest: Bytes)
    requires |sign.text| < 256
    ensures ReadSign(SignBytes(sign) + rest) == Ok(Parsed(sign, rest))
  {
    var ys := U32Bytes(sign.y) + rest;
    var xs := U32Bytes(sign.x) + ys;
    assert SignBytes(sign) + rest == StringBytes(sign.text) + xs by {
      Assoc(StringBytes(sign.text) + U32Bytes(sign.x), U32Bytes(sign.y), rest);
      Assoc(StringBytes(sign.text), U32Bytes(sign.x), ys);
    }
    StringRoundTrip(sign.text, xs);
    U32RoundTrip(sign.x, ys);
    U32RoundTrip(sign.y, rest);
  }

  /** Fewer than 65536 signs with short texts come back unchanged. */
  lemma SignsRoundTrip(signs: seq<Sign>, rest: Bytes)
    requires |signs| < 0x1_0000
    requires forall sign :: sign in signs ==> |sign.text| < 256
    ensures ReadSigns(SignsBytes(signs) + rest) == Ok(Parsed(signs, rest))
  {
    forall sign, r | sign in signs
      ensures ReadSign(SignBytes(sign) + r) == Ok(Parsed(sign, r))
    {
      SignRoundTrip(sign, r);
    }
    List16Decode(signs, SignBytes, ReadSign, (x: Sign) => x, rest);
    assert MapSeq(signs, (x: Sign) => x) == signs;
  }
}
