/** The world header: a fixed, ordered schema of 181 fields (decoded at
    src/read.rs:91-269, encoded at src/write.rs:73-245), and the 24-byte
    file prefix in front of the checkpoint table (src/read.rs:66-70,
    src/write.rs:42-46).  Each field is one primitive or one counted list;
    fixed-size arrays are spelled out element by element.  The encoder
    writes the same schema except that it puts `jungle_bg` before
    `ice_bg`, and the decoder stops a `tree_top_stuff` list after 13
    entries whatever count precedes it. */
module HeaderFormat {
  import opened Structs
  import opened Wire

  /** How one field is stored. */
  datatype Kind =
    | KU8 | KBool | KU16 | KU32 | KU64 | KU128 | KF32 | KF64 | KString
    | KStrings       // u32 count, then strings
    | KU32sByU16     // u16 count, then u32s
    | KU32s          // u32 count, then u32s
    | KTreeTop       // u32 count, then at most 13 u32s are read

  /** One decoded field. */
  datatype Value =
    | VU8(b: byte)
    | VBool(flag: bool)
    | VU16(n16: u16)
    | VU32(n32: u32)
    | VU64(n64: u64)
    | VU128(n128: u128)
    | VF32(bits32: f32)
    | VF64(bits64: f64)
    | VString(text: Bytes)
    | VStrings(texts: seq<Bytes>)
    | VU32s(numbers: seq<u32>)

  /** `v` has the shape the kind `k` stores. */
  predicate Fits(k: Kind, v: Value)
  {
    match k
    case KU8 => v.VU8?
    case KBool => v.VBool?
    case KU16 => v.VU16?
    case KU32 => v.VU32?
    case KU64 => v.VU64?
    case KU128 => v.VU128?
    case KF32 => v.VF32?
    case KF64 => v.VF64?
    case KString => v.VString?
    case KStrings => v.VStrings?
    case KU32sByU16 | KU32s | KTreeTop => v.VU32s?
  }

  /** `v` fits `k` and survives the encoder's casts: strings shorter than
      256 bytes (the `len as u8` prefix), lists whose length fits their
      count, and at most 13 tree tops. */
  predicate Representable(k: Kind, v: Value)
  {
    && Fits(k, v)
    && (v.VString? ==> |v.text| < 256)
    && (v.VStrings? ==> |v.texts| < 0x1_0000_0000 && forall t :: t in v.texts ==> |t| < 256)
    && (k == KU32sByU16 ==> |v.numbers| < 0x1_0000)
    && (k == KU32s ==> |v.numbers| < 0x1_0000_0000)
    && (k == KTreeTop ==> |v.numbers| <= 13)
  }

  function Min(a: nat, b: nat): nat { if a < b then a else b }

  // ---------------------------------------------------------------------
  // Decoder
  // ---------------------------------------------------------------------

  function ReadValue(s: Bytes, k: Kind): (r: Result<Parsed<Value>>)
    ensures r.Ok? ==> Fits(k, r.value.value)
  {
    match k
    case KU8 => var x :- ReadU8(s); Ok(Parsed(VU8(x.value), x.rest))
    case KBool => var x :- ReadBool(s); Ok(Parsed(VBool(x.value), x.rest))
    case KU16 => var x :- ReadU16(s); Ok(Parsed(VU16(x.value), x.rest))
    case KU32 => var x :- ReadU32(s); Ok(Parsed(VU32(x.value), x.rest))
    case KU64 => var x :- ReadU64(s); Ok(Parsed(VU64(x.value), x.rest))
    case KU128 => var x :- ReadU128(s); Ok(Parsed(VU128(x.value), x.rest))
    case KF32 => var x :- ReadU32(s); Ok(Parsed(VF32(x.value), x.rest))
    case KF64 => var x :- ReadU64(s); Ok(Parsed(VF64(x.value), x.rest))
    case KString => var x :- ReadString(s); Ok(Parsed(VString(x.value), x.rest))
    case KStrings => var x :- ReadList32(s, ReadString); Ok(Parsed(VStrings(x.value), x.rest))
    case KU32sByU16 => var x :- ReadList16(s, ReadU32); Ok(Parsed(VU32s(x.value), x.rest))
    case KU32s => var x :- ReadList32(s, ReadU32); Ok(Parsed(VU32s(x.value), x.rest))
    case KTreeTop =>
      var n :- ReadU32(s);
      var x :- ReadMany(n.rest, Min(n.value, 13), ReadU32);
      Ok(Parsed(VU32s(x.value), x.rest))
  }

  /** The fields of `schema`, in order. */
  function ReadValues(s: Bytes, schema: seq<Kind>): (r: Result<Parsed<seq<Value>>>)
    ensures r.Ok? ==> Conforms(schema, r.value.value)
    decreases schema
  {
    if schema == [] then Ok(Parsed([], s))
    else
      var v :- ReadValue(s, schema[0]);
      var more :- ReadValues(v.rest, schema[1..]);
      Ok(Parsed([v.value] + more.value, more.rest))
  }

  // ---------------------------------------------------------------------
  // Encoder
  // ---------------------------------------------------------------------

  function ValueBytes(k: Kind, v: Value): Bytes
    requires Fits(k, v)
  {
    match k
    case KU8 => [v.b]
    case KBool => BoolBytes(v.flag)
    case KU16 => U16Bytes(v.n16)
    case KU32 => U32Bytes(v.n32)
    case KU64 => U64Bytes(v.n64)
    case KU128 => U128Bytes(v.n128)
    case KF32 => U32Bytes(v.bits32)
    case KF64 => U64Bytes(v.bits64)
    case KString => StringBytes(v.text)
    case KStrings => List32Bytes(v.texts, StringBytes)
    case KU32sByU16 => List16Bytes(v.numbers, U32Bytes)
    case KU32s | KTreeTop => List32Bytes(v.numbers, U32Bytes)
  }

  predicate Conforms(schema: seq<Kind>, values: seq<Value>)
  {
    |schema| == |values| && forall i :: 0 <= i < |values| ==> Fits(schema[i], values[i])
  }

  predicate AllRepresentable(schema: seq<Kind>, values: seq<Value>)
  {
    |schema| == |values| && forall i :: 0 <= i < |values| ==> Representable(schema[i], values[i])
  }

  function ValuesBytes(schema: seq<Kind>, values: seq<Value>): Bytes
    requires Conforms(schema, values)
  {
    if schema == [] then [] else ValueBytes(schema[0], values[0]) + ValuesBytes(schema[1..], values[1..])
  }

  // ---------------------------------------------------------------------
  // The schemas
  // ---------------------------------------------------------------------


  /** Identity and extent of the world (fields 0-11). */
  const IdentityFields: seq<Kind> :=
    [
      KString, KString, KU64, KU128,              // 0: name, seed, world_gen_version, guid
      KU32, KU32, KU32, KU32,                     // 4: id, left, right, top
      KU32, KU32, KU32, KU32                      // 8: bottom, height, width, gamemode
    ]

  /** Special-seed flags (fields 12-19). */
  const SeedFlagFields: seq<Kind> :=
    [
      KBool, KBool, KBool, KBool,                 // 12: drunk_world, good_world, tenth_anniversary_world, dont_starve_world
      KBool, KBool, KBool, KBool                  // 16: notthebees_world, remix_world, notraps_world, zenith_world
    ]

  /** World generation: moon, tree and cave background zones (fields 20-35). */
  const GenerationFields: seq<Kind> :=
    [
      KU64, KU8, KU32, KU32,                      // 20: creation_time, moon_type, tree_type_xcoords[0], tree_type_xcoords[1]
      KU32, KU32, KU32, KU32,                     // 24: tree_type_xcoords[2], tree_types[0], tree_types[1], tree_types[2]
      KU32, KU32, KU32, KU32,                     // 28: tree_types[3], cave_bg_xcoords[0], cave_bg_xcoords[1], cave_bg_xcoords[2]
      KU32, KU32, KU32, KU32                      // 32: cave_bgs[0], cave_bgs[1], cave_bgs[2], cave_bgs[3]
    ]

  /** Backgrounds, spawn point, layer depths and clock (fields 36-43). */
  const BackgroundFields: seq<Kind> :=
    [
      KU32, KU32, KU32, KU32,                     // 36: ice_bg, jungle_bg, hell_bg, spawn_x
      KU32, KF64, KF64, KF64                      // 40: spawn_y, world_surface_y, rock_layer_y, game_time
    ]

  /** Day cycle, dungeon and the first boss flags (fields 44-58). */
  const ProgressFields: seq<Kind> :=
    [
      KBool, KU32, KBool, KBool,                  // 44: is_day, moon_phase, blood_moon, eclipse
      KU32, KU32, KBool, KBool,                   // 48: dungeon_x, dungeon_y, crimson_world, killed_eye_of_cthulu
      KBool, KBool, KBool, KBool,                 // 52: killed_eater_of_worlds, killed_skeletron, killed_queen_bee, killed_the_destroyer
      KBool, KBool, KBool                         // 56: killed_the_twins, killed_skeletron_prime, killed_any_hardmode_boss
    ]

  /** Further boss and rescue flags (fields 59-74). */
  const BossFields: seq<Kind> :=
    [
      KBool, KBool, KBool, KBool,                 // 59: killed_plantera, killed_golem, killed_slime_king, saved_goblin_tinkerer
      KBool, KBool, KBool, KBool,                 // 63: saved_wizard, saved_mechanic, defeated_goblin_invasion, killed_clown
      KBool, KBool, KBool, KBool,                 // 67: defeated_frost_legion, defeated_pirates, broken_shadow_orb, meteor_spawned
      KU8, KU32, KBool, KBool                     // 71: shadow_orbs_broken_mod3, altars_smashed, hard_mode, after_party_of_doom
    ]

  /** Invasions, rain and ore tiers (fields 75-86). */
  const InvasionFields: seq<Kind> :=
    [
      KU32, KU32, KU32, KF64,                     // 75: goblin_invasion_delay, goblin_invasion_size, goblin_invasion_type, goblin_invasion_x
      KF64, KU8, KBool, KU32,                     // 79: slime_rain_time, sundial_cooldown, is_raining, rain_time
      KF32, KU32, KU32, KU32                      // 83: max_rain, tier_1_ore_id, tier_2_ore_id, tier_3_ore_id
    ]

  /** Biome styles, clouds and wind (fields 87-97). */
  const StyleFields: seq<Kind> :=
    [
      KU8, KU8, KU8, KU8,                         // 87: tree_style, corruption_style, jungle_style, snow_style
      KU8, KU8, KU8, KU8,                         // 91: hallow_style, crimson_style, desert_style, ocean_style
      KU32, KU16, KF32                            // 95: cloud_bg, num_clouds, wind_speed
    ]

  /** Angler, townsfolk and kill counts (fields 98-107). */
  const AnglerFields: seq<Kind> :=
    [
      KStrings, KBool, KU32, KBool,               // 98: angler_finishers, saved_angler, angler_quest, saved_stylist
      KBool, KBool, KU32, KU32,                   // 102: saved_tax_collector, saved_golfer, invasion_size_start, temp_cultist_delay
      KU32sByU16, KBool                           // 106: kill_counts, fast_forward_time
    ]

  /** Post-Plantera bosses, pillars and parties (fields 108-127). */
  const LunarFields: seq<Kind> :=
    [
      KBool, KBool, KBool, KBool,                 // 108: downed_fishron, downed_martians, downed_ancient_cultist, downed_moonlord
      KBool, KBool, KBool, KBool,                 // 112: downed_halloween_king, downed_halloween_tree, downed_christmas_ice_queen, downed_christmas_santank
      KBool, KBool, KBool, KBool,                 // 116: downed_christmas_tree, downed_tower_solar, downed_tower_vortex, downed_tower_nebula
      KBool, KBool, KBool, KBool,                 // 120: downed_tower_stardust, tower_active_solar, tower_active_vortex, tower_active_nebula
      KBool, KBool, KBool, KBool                  // 124: tower_active_stardust, lunar_apocalypse_is_up, party_manual, party_genuine
    ]

  /** Parties, sandstorms, invasions and backgrounds (fields 128-143). */
  const EventFields: seq<Kind> :=
    [
      KU32, KU32s, KBool, KU32,                   // 128: party_cooldown, party_celebrating_npcs, sandstorm_happening, sandstorm_time_left
      KF32, KF32, KBool, KBool,                   // 132: sandstorm_severity, sandstorm_intended_severity, saved_bartender, downed_invasion_tier_1
      KBool, KBool, KU8, KU8,                     // 136: downed_invasion_tier_2, downed_invasion_tier_3, mushroom_bg, underworld_bg
      KU8, KU8, KU8, KBool                        // 140: tree2_bg, tree3_bg, tree4_bg, combat_book_was_used
    ]

  /** Lantern nights, tree tops, ore tiers and pets (fields 144-158). */
  const LanternFields: seq<Kind> :=
    [
      KU32, KBool, KBool, KBool,                  // 144: lantern_night_stuff, lantern_night_more_stuff[0], lantern_night_more_stuff[1], lantern_night_more_stuff[2]
      KTreeTop, KBool, KBool, KU32,               // 148: tree_top_stuff, force_halloween_for_today, force_xmas_for_today, copper_tier
      KU32, KU32, KU32, KBool,                    // 152: iron_tier, silver_tier, gold_tier, bought_cat
      KBool, KBool, KBool                         // 156: bought_dog, bought_bunny, downed_empress_of_light
    ]

  /** Late bosses and town unlocks (fields 159-170). */
  const UnlockFields: seq<Kind> :=
    [
      KBool, KBool, KBool, KBool,                 // 159: downed_queen_slime, downed_deerclops, unlocked_slime_blue_spawn, unlocked_merchant_spawn
      KBool, KBool, KBool, KBool,                 // 163: unlocked_demolitionist_spawn, unlocked_party_girl_spawn, unlocked_dye_trader_spawn, unlocked_truffle_spawn
      KBool, KBool, KBool, KBool                  // 167: unlocked_arms_dealer_spawn, unlocked_nurse_spawn, unlocked_princess_spawn, combat_book_v2_was_used
    ]

  /** Town slimes and the moondial (fields 171-180). */
  const SlimeFields: seq<Kind> :=
    [
      KBool, KBool, KBool, KBool,                 // 171: peddlers_satched_was_used, unlocked_slime_green_spawn, unlocked_slime_old_spawn, unlocked_slime_purple_spawn
      KBool, KBool, KBool, KBool,                 // 175: unlocked_slime_rainbow_spawn, unlocked_slime_red_spawn, unlocked_slime_yellow_spawn, unlocked_slime_copper_spawn
      KBool, KU8                                  // 179: fast_forward_to_dusk, moondial_cooldown
    ]

  /** The header fields in the decoder's order (src/read.rs:91-269). */
  const HeaderSchema: seq<Kind> :=
    IdentityFields + SeedFlagFields + GenerationFields + BackgroundFields + ProgressFields
    + BossFields + InvasionFields + StyleFields + AnglerFields + LunarFields
    + EventFields + LanternFields + UnlockFields + SlimeFields

  const NameField := 0
  const IdField := 4
  const HeightField := 9
  const WidthField := 10
  const IceBgField := 36
  const JungleBgField := 37
  const TreeTopField := 148

  predicate WellFormedHeader(header: seq<Value>)
  {
    Conforms(HeaderSchema, header)
  }

  /** The fields the rest of the file depends on have their kinds: the
      name, the id, the plane's size and the two traded backgrounds. */
  predicate HasFields(header: seq<Value>)
  {
    && JungleBgField < |header|
    && header[NameField].VString? && header[IdField].VU32?
    && header[HeightField].VU32? && header[WidthField].VU32?
    && header[IceBgField].VU32? && header[JungleBgField].VU32?
  }

  lemma WellFormedFields(header: seq<Value>)
    requires WellFormedHeader(header)
    ensures HasFields(header)
  {
    assert HeaderSchema[NameField] == KString;
    assert HeaderSchema[IdField] == KU32 && HeaderSchema[HeightField] == KU32;
    assert HeaderSchema[WidthField] == KU32;
    assert HeaderSchema[IceBgField] == KU32 && HeaderSchema[JungleBgField] == KU32;
  }

  function Name(header: seq<Value>): Bytes
    requires HasFields(header)
  {
    header[NameField].text
  }

  function Id(header: seq<Value>): u32
    requires HasFields(header)
  {
    header[IdField].n32
  }

  function Width(header: seq<Value>): u32
    requires HasFields(header)
  {
    header[WidthField].n32
  }

  function Height(header: seq<Value>): u32
    requires HasFields(header)
  {
    header[HeightField].n32
  }

  /** The header with its ice and jungle backgrounds traded; every other
      field stays. */
  function SwapBackgrounds(header: seq<Value>): (swapped: seq<Value>)
    requires HasFields(header)
    ensures |swapped| == |header| && HasFields(swapped)
    ensures swapped[IceBgField] == header[JungleBgField] && swapped[JungleBgField] == header[IceBgField]
    ensures forall i :: 0 <= i < |header| && i != IceBgField && i != JungleBgField ==> swapped[i] == header[i]
  {
    header[IceBgField := header[JungleBgField]][JungleBgField := header[IceBgField]]
  }

  /** The header as the encoder writes it: schema order, except that
      `jungle_bg` comes before `ice_bg` (src/write.rs:99-100). */
  function HeaderBytes(header: seq<Value>): Bytes
    requires WellFormedHeader(header)
  {
    SwapKeepsShape(header);
    ValuesBytes(HeaderSchema, SwapBackgrounds(header))
  }

  lemma SwapKeepsShape(header: seq<Value>)
    requires WellFormedHeader(header)
    ensures HasFields(header) && WellFormedHeader(SwapBackgrounds(header))
  {
    WellFormedFields(header);
    assert HeaderSchema[IceBgField] == KU32 == HeaderSchema[JungleBgField];
  }

  /** Every field of the header survives the encoder's casts. */
  predicate RepresentableHeader(header: seq<Value>)
  {
    WellFormedHeader(header) && AllRepresentable(HeaderSchema, header)
  }

  // ---------------------------------------------------------------------
  // Round trips
  // ---------------------------------------------------------------------

  /** A representable field decodes to itself, whatever follows it. */
  lemma ValueRoundTrip(k: Kind, v: Value, rest: Bytes)
    requires Representable(k, v)
    ensures ReadValue(ValueBytes(k, v) + rest, k) == Ok(Parsed(v, rest))
  {
    match k
    case KU8 => U8RoundTrip(v.b, rest);
    case KBool => BoolRoundTrip(v.flag, rest);
    case KU16 => U16RoundTrip(v.n16, rest);
    case KU32 => U32RoundTrip(v.n32, rest);
    case KU64 => U64RoundTrip(v.n64, rest);
    case KU128 => U128RoundTrip(v.n128, rest);
    case KF32 => U32RoundTrip(v.bits32, rest);
    case KF64 => U64RoundTrip(v.bits64, rest);
    case KString => StringRoundTrip(v.text, rest);
    case KStrings => StringsRoundTrip(v.texts, rest);
    case KU32sByU16 => U32sRoundTrip16(v.numbers, rest);
    case KU32s => U32sRoundTrip32(v.numbers, rest);
    case KTreeTop => TreeTopRoundTrip(v.numbers, rest);
  }

  /** Every number decodes to itself, whatever follows it. */
  lemma U32sDecode(xs: seq<u32>)
    ensures forall x, r :: x in xs ==> ReadU32(U32Bytes(x) + r) == Ok(Parsed(x, r))
  {
    forall x, r | x in xs
      ensures ReadU32(U32Bytes(x) + r) == Ok(Parsed(x, r))
    {
      U32RoundTrip(x, r);
    }
  }

  /** Every short string decodes to itself, whatever follows it. */
  lemma StringsDecode(texts: seq<Bytes>)
    requires forall t :: t in texts ==> |t| < 256
    ensures forall x, r :: x in texts ==> ReadString(StringBytes(x) + r) == Ok(Parsed(x, r))
  {
    forall x, r | x in texts
      ensures ReadString(StringBytes(x) + r) == Ok(Parsed(x, r))
    {
      StringRoundTrip(x, r);
    }
  }

  lemma StringListRoundTrip(texts: seq<Bytes>, rest: Bytes)
    requires |texts| < 0x1_0000_0000 && forall t :: t in texts ==> |t| < 256
    ensures ReadList32(List32Bytes(texts, StringBytes) + rest, ReadString) == Ok(Parsed(texts, rest))
  {
    StringsDecode(texts);
    List32Decode(texts, StringBytes, ReadString, (x: Bytes) => x, rest);
    assert MapSeq(texts, (x: Bytes) => x) == texts;
  }

  lemma StringsRoundTrip(texts: seq<Bytes>, rest: Bytes)
    requires |texts| < 0x1_0000_0000 && forall t :: t in texts ==> |t| < 256
    ensures ReadValue(ValueBytes(KStrings, VStrings(texts)) + rest, KStrings) == Ok(Parsed(VStrings(texts), rest))
  {
    StringListRoundTrip(texts, rest);
  }

  lemma NumberList16RoundTrip(xs: seq<u32>, rest: Bytes)
    requires |xs| < 0x1_0000
    ensures ReadList16(List16Bytes(xs, U32Bytes) + rest, ReadU32) == Ok(Parsed(xs, rest))
  {
    U32sDecode(xs);
    List16Decode(xs, U32Bytes, ReadU32, (x: u32) => x, rest);
    assert MapSeq(xs, (x: u32) => x) == xs;
  }

  lemma U32sRoundTrip16(xs: seq<u32>, rest: Bytes)
    requires |xs| < 0x1_0000
    ensures ReadValue(ValueBytes(KU32sByU16, VU32s(xs)) + rest, KU32sByU16) == Ok(Parsed(VU32s(xs), rest))
  {
    NumberList16RoundTrip(xs, rest);
  }

  lemma NumberList32RoundTrip(xs: seq<u32>, rest: Bytes)
    requires |xs| < 0x1_0000_0000
    ensures ReadList32(List32Bytes(xs, U32Bytes) + rest, ReadU32) == Ok(Parsed(xs, rest))
  {
    U32sDecode(xs);
    List32Decode(xs, U32Bytes, ReadU32, (x: u32) => x, rest);
    assert MapSeq(xs, (x: u32) => x) == xs;
  }

  lemma U32sRoundTrip32(xs: seq<u32>, rest: Bytes)
    requires |xs| < 0x1_0000_0000
    ensures ReadValue(ValueBytes(KU32s, VU32s(xs)) + rest, KU32s) == Ok(Parsed(VU32s(xs), rest))
  {
    NumberList32RoundTrip(xs, rest);
  }

  /** The tree-top count, then the first `min(count, 13)` entries. */
  lemma TreeTopPrefix(xs: seq<u32>, k: nat, rest: Bytes)
    requires |xs| < 0x1_0000_0000 && k == Min(|xs|, 13)
    ensures ReadValue(ValueBytes(KTreeTop, VU32s(xs)) + rest, KTreeTop)
            == Ok(Parsed(VU32s(xs[..k]), ManyBytes(xs[k..], U32Bytes) + rest))
  {
    var after := ManyBytes(xs[k..], U32Bytes) + rest;
    var body := ManyBytes(xs, U32Bytes) + rest;
    assert |xs| % 0x1_0000_0000 == |xs|;
    assert ValueBytes(KTreeTop, VU32s(xs)) + rest == U32Bytes(|xs|) + body by {
      Assoc(U32Bytes(|xs|), ManyBytes(xs, U32Bytes), rest);
    }
    U32RoundTrip(|xs|, body);
    assert body == ManyBytes(xs[..k], U32Bytes) + after by {
      ManyBytesSplit(xs, U32Bytes, k);
      Assoc(ManyBytes(xs[..k], U32Bytes), ManyBytes(xs[k..], U32Bytes), rest);
    }
    U32sDecode(xs[..k]);
    ManyDecode(xs[..k], U32Bytes, ReadU32, (x: u32) => x, after);
    assert MapSeq(xs[..k], (x: u32) => x) == xs[..k];
  }

  lemma TreeTopRoundTrip(xs: seq<u32>, rest: Bytes)
    requires |xs| <= 13
    ensures ReadValue(ValueBytes(KTreeTop, VU32s(xs)) + rest, KTreeTop) == Ok(Parsed(VU32s(xs), rest))
  {
    TreeTopPrefix(xs, |xs|, rest);
    assert xs[..|xs|] == xs && xs[|xs|..] == [];
    assert ManyBytes(xs[|xs|..], U32Bytes) + rest == rest;
  }

  /** Representable fields, encoded one after the other, decode to
      themselves. */
  lemma {:induction false} ValuesRoundTrip(schema: seq<Kind>, values: seq<Value>, rest: Bytes)
    requires AllRepresentable(schema, values)
    ensures ReadValues(ValuesBytes(schema, values) + rest, schema) == Ok(Parsed(values, rest))
  {
    ValuesFrom(schema, values, |schema|, rest);
    assert schema[|schema|..] == [] && values[|schema|..] == [] && values[..|schema|] == values;
    assert ValuesBytes([], []) + rest == rest;
    assert values + [] == values;
  }

  /** Reading back what the encoder wrote yields the header with its ice
      and jungle backgrounds exchanged. */
  lemma HeaderDecode(header: seq<Value>, rest: Bytes)
    requires RepresentableHeader(header)
    ensures ReadValues(HeaderBytes(header) + rest, HeaderSchema) == Ok(Parsed(SwapBackgrounds(header), rest))
  {
    var swapped := SwapBackgrounds(header);
    assert HeaderSchema[IceBgField] == KU32 == HeaderSchema[JungleBgField];
    assert AllRepresentable(HeaderSchema, swapped);
    ValuesRoundTrip(HeaderSchema, swapped, rest);
  }

  /** The header comes back unchanged exactly when the two backgrounds the
      encoder exchanges are equal. */
  lemma HeaderRoundTripIff(header: seq<Value>, rest: Bytes)
    requires RepresentableHeader(header)
    ensures ReadValues(HeaderBytes(header) + rest, HeaderSchema) == Ok(Parsed(header, rest))
            <==> header[IceBgField] == header[JungleBgField]
  {
    HeaderDecode(header, rest);
    var swapped := SwapBackgrounds(header);
    if header[IceBgField] == header[JungleBgField] {
      assert swapped == header;
    } else {
      assert swapped[IceBgField] != header[IceBgField];
    }
  }

  /** A list of more than 13 tree tops is cut after 13 entries, and the
      entries beyond them are left in the stream for the fields that
      follow. */
  lemma TreeTopCapped(xs: seq<u32>, rest: Bytes)
    requires 13 < |xs| < 0x1_0000_0000
    ensures ReadValue(ValueBytes(KTreeTop, VU32s(xs)) + rest, KTreeTop)
            == Ok(Parsed(VU32s(xs[..13]), ManyBytes(xs[13..], U32Bytes) + rest))
  {
    TreeTopPrefix(xs, 13, rest);
  }

  /** The fields `xs` read so far, followed by what reading on gives. */
  function Prepended(xs: seq<Value>, r: Result<Parsed<seq<Value>>>): (q: Result<Parsed<seq<Value>>>)
    ensures q.Ok? <==> r.Ok?
    ensures r.Ok? ==> q.value.value == xs + r.value.value && q.value.rest == r.value.rest
  {
    match r
    case Ok(p) => Ok(Parsed(xs + p.value, p.rest))
    case Err(e) => Err(e)
  }

  lemma PrependedTwice(xs: seq<Value>, ys: seq<Value>, r: Result<Parsed<seq<Value>>>)
    ensures Prepended(xs, Prepended(ys, r)) == Prepended(xs + ys, r)
  {
    if r.Ok? {
      assert xs + (ys + r.value.value) == xs + ys + r.value.value;
    }
  }

  /** The first `k` fields, when representable, decode to themselves, and
      the decoder goes on from the bytes of the fields after them. */
  lemma {:induction false} ValuesFrom(schema: seq<Kind>, values: seq<Value>, k: nat, rest: Bytes)
    requires Conforms(schema, values) && k <= |schema|
    requires forall i :: 0 <= i < k ==> Representable(schema[i], values[i])
    ensures ReadValues(ValuesBytes(schema, values) + rest, schema)
            == Prepended(values[..k], ReadValues(ValuesBytes(schema[k..], values[k..]) + rest, schema[k..]))
    decreases k
  {
    if k == 0 {
      assert schema[0..] == schema && values[0..] == values && values[..0] == [];
      var whole := ReadValues(ValuesBytes(schema, values) + rest, schema);
      if whole.Ok? {
        assert values[..0] + whole.value.value == whole.value.value;
      }
    } else {
      Shifted(schema, k);
      Shifted(values, k);
      ValuesStep(schema, values, rest);
      forall i | 0 <= i < k - 1
        ensures Representable(schema[1..][i], values[1..][i])
      {
        assert schema[1..][i] == schema[i + 1] && values[1..][i] == values[i + 1];
      }
      ValuesFrom(schema[1..], values[1..], k - 1, rest);
      PrependedTwice([values[0]], values[1..][..k - 1], ReadValues(ValuesBytes(schema[k..], values[k..]) + rest, schema[k..]));
    }
  }

  /** A representable first field decodes to itself, and the decoder goes
      on from the bytes of the fields after it. */
  lemma ValuesStep(schema: seq<Kind>, values: seq<Value>, rest: Bytes)
    requires Conforms(schema, values) && schema != []
    requires Representable(schema[0], values[0])
    ensures ReadValues(ValuesBytes(schema, values) + rest, schema)
            == Prepended([values[0]], ReadValues(ValuesBytes(schema[1..], values[1..]) + rest, schema[1..]))
  {
    var head := ValueBytes(schema[0], values[0]);
    var tail := ValuesBytes(schema[1..], values[1..]);
    Assoc(head, tail, rest);
    ValueRoundTrip(schema[0], values[0], tail + rest);
  }

  /** Slicing the tail of a sequence from `k - 1` is slicing the sequence
      from `k`, and the first element before the tail's first `k - 1` is
      the sequence's first `k`. */
  lemma Shifted<T>(xs: seq<T>, k: nat)
    requires 0 < k <= |xs|
    ensures xs[1..][k - 1..] == xs[k..] && [xs[0]] + xs[1..][..k - 1] == xs[..k]
  {
    assert xs[1..][..k - 1] == xs[1..k];
  }

  /** A header with more than 13 tree tops, every other field
      representable, is read back with only the first 13: the decoder
      takes the rest for the fields that follow, so the header it reads
      is never the one written, backgrounds exchanged or not. */
  lemma TreeTopHeader(header: seq<Value>, rest: Bytes)
    requires WellFormedHeader(header)
    requires forall i :: 0 <= i < |header| && i != TreeTopField ==> Representable(HeaderSchema[i], header[i])
    requires 13 < |header[TreeTopField].numbers| < 0x1_0000_0000
    ensures var r := ReadValues(HeaderBytes(header) + rest, HeaderSchema);
            && (r.Ok? ==> r.value.value[TreeTopField] == VU32s(header[TreeTopField].numbers[..13]))
            && r != Ok(Parsed(SwapBackgrounds(header), rest))
  {
    var swapped := SwapBackgrounds(header);
    SwapKeepsShape(header);
    var n := TreeTopField;
    assert HeaderSchema[IceBgField] == KU32 == HeaderSchema[JungleBgField];
    assert HeaderSchema[n] == KTreeTop;
    forall i | 0 <= i < n
      ensures Representable(HeaderSchema[i], swapped[i])
    {
      if i == IceBgField || i == JungleBgField {
        assert swapped[i].VU32?;
      }
    }
    ValuesFrom(HeaderSchema, swapped, n, rest);
    TreeTopFirst(HeaderSchema[n..], swapped[n..], rest);
  }

  /** Fields that start with more than 13 tree tops read back, if at all,
      with only the first 13 of them. */
  lemma TreeTopFirst(schema: seq<Kind>, values: seq<Value>, rest: Bytes)
    requires Conforms(schema, values) && schema != [] && schema[0] == KTreeTop
    requires 13 < |values[0].numbers| < 0x1_0000_0000
    ensures var r := ReadValues(ValuesBytes(schema, values) + rest, schema);
            r.Ok? ==> r.value.value[0] == VU32s(values[0].numbers[..13])
  {
    var xs := values[0].numbers;
    var tail := ValuesBytes(schema[1..], values[1..]);
    Assoc(ValueBytes(KTreeTop, VU32s(xs)), tail, rest);
    TreeTopCapped(xs, tail + rest);
  }


  // ---------------------------------------------------------------------
  // The file prefix
  // ---------------------------------------------------------------------

  /** version, magic_number (7 bytes), file_type, revision, is_favorite. */
  datatype Prefix = Prefix(version: u32, magic: seq<byte>, fileType: byte, revision: u32, favorite: u64)

  predicate ValidPrefix(p: Prefix) { |p.magic| == 7 }

  function ReadPrefix(s: Bytes): (r: Result<Parsed<Prefix>>)
    ensures r.Ok? <==> 24 <= |s|
    ensures r.Ok? ==> ValidPrefix(r.value.value) && r.value.rest == s[24..]
  {
    var version :- ReadU32(s);
    var magic :- Take(version.rest, 7);
    var fileType :- ReadU8(magic.rest);
    var revision :- ReadU32(fileType.rest);
    var favorite :- ReadU64(revision.rest);
    Ok(Parsed(Prefix(version.value, magic.value, fileType.value, revision.value, favorite.value), favorite.rest))
  }

  function PrefixBytes(p: Prefix): (s: Bytes)
    requires ValidPrefix(p)
    ensures |s| == 24
  {
    U32Bytes(p.version) + p.magic + [p.fileType] + U32Bytes(p.revision) + U64Bytes(p.favorite)
  }

  /** The 24-byte prefix round-trips. */
  lemma PrefixRoundTrip(p: Prefix, rest: Bytes)
    requires ValidPrefix(p)
    ensures ReadPrefix(PrefixBytes(p) + rest) == Ok(Parsed(p, rest))
  {
    var s4 := U64Bytes(p.favorite) + rest;
    var s3 := U32Bytes(p.revision) + s4;
    var s2 := [p.fileType] + s3;
    var s1 := p.magic + s2;
    assert PrefixBytes(p) + rest == U32Bytes(p.version) + s1;
    U32RoundTrip(p.version, s1);
    U8RoundTrip(p.fileType, s3);
    U32RoundTrip(p.revision, s4);
    U64RoundTrip(p.favorite, rest);
  }
}
