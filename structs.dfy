/** The value types of a decoded world (src/structs.rs).
    Every type is a datatype, so equality is structural, which is what the
    source's derived `Eq`/`Hash` give the interning pool and the run detection.
    Floating-point fields are kept as their raw IEEE bit patterns: the codec
    only ever copies them bit for bit. */
module Structs {

  /** Bytes are bit-vectors: the flag bytes are examined with `&` and `>>`. */
  type byte = bv8
  /** The wider unsigned integers are bounded integers: the codec only
      compares, counts and indexes with them. */
  type u16 = n: int | 0 <= n < 0x1_0000
  type u32 = n: int | 0 <= n < 0x1_0000_0000
  type u64 = n: int | 0 <= n < 0x1_0000_0000_0000_0000
  type u128 = n: int | 0 <= n < 0x1_0000_0000_0000_0000_0000_0000_0000_0000
  /** The bits of an IEEE-754 single, as `f32::from_bits` / `to_le_bytes` see them. */
  type f32 = u32
  /** The bits of an IEEE-754 double. */
  type f64 = u64

  type Bytes = seq<byte>

  datatype Option<+T> = None | Some(value: T)

  /** Six shapes, in the order of the 3-bit slope codes 0..5. */
  datatype Slope = Full | Half | LowerLeft | LowerRight | UpperLeft | UpperRight

  datatype LiquidType = Water | Lava | Honey | Shimmer

  /** `uv` is the sub-tile anchor; it is present exactly when the world's
      importance table marks `id`, but nothing in the type enforces that. */
  datatype Block = Block(id: u16, color: Option<byte>, uv: Option<(u16, u16)>, inactive: bool, slope: Slope)

  datatype Wall = Wall(id: u16, color: Option<byte>)

  datatype Liquid = Liquid(kind: LiquidType, amount: byte)

  datatype Tile = Tile(
    block: Option<Block>,
    wall: Option<Wall>,
    liquid: Option<Liquid>,
    redWire: bool,
    greenWire: bool,
    blueWire: bool,
    yellowWire: bool,
    actuator: bool)

  /** The tile a freshly created world is filled with. */
  const EmptyTile := Tile(None, None, None, false, false, false, false, false)

  datatype Item = Item(id: u32, prefix: byte, count: u16)

  /** `items` is unbounded, although the file format has exactly 40 slots per chest. */
  datatype Chest = Chest(name: Bytes, x: u32, y: u32, items: seq<Option<Item>>)

  datatype Sign = Sign(x: u32, y: u32, text: Bytes)

  datatype Npc = Npc(
    id: u32,
    name: Bytes,
    x: f32,
    y: f32,
    homeless: bool,
    homeX: u32,
    homeY: u32,
    variationIndex: u32,
    shimmered: bool,
    isPillar: bool)

  /** The 16 slots of a mannequin (`[Option<Item>; 16]`). */
  type MannequinSlots = s: seq<Option<Item>> | |s| == 16 witness seq(16, _ => None)

  /** The 4 slots of a hat rack (`[Option<Item>; 4]`). */
  type HatRackSlots = s: seq<Option<Item>> | |s| == 4 witness seq(4, _ => None)

  datatype TileEntityInfo =
    | TargetDummy(npc: u16)
    | ItemFrame(item: Option<Item>)
    | LogicSensor(logicCheck: byte, on: bool)
    | Mannequin(slots: MannequinSlots)
    | WeaponRack(item: Option<Item>)
    | HatRack(hats: HatRackSlots)
    | FoodPlatter(item: Option<Item>)
    | Pylon

  datatype TileEntity = TileEntity(id: u32, x: u16, y: u16, info: TileEntityInfo)

  datatype NpcRoom = NpcRoom(id: u32, x: u32, y: u32)

  /** The six journey-mode powers the codec knows, keyed on the wire by
      the 16-bit tags 0, 8, 9, 10, 12 and 13. */
  datatype CreativePower =
    | FreezeTime(on: bool)
    | TimeRate(rate: f32)
    | FreezeWeather(on: bool)
    | FreezeWind(on: bool)
    | DifficultySlider(level: f32)
    | FreezeSpread(on: bool)
}
