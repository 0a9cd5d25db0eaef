/** The small sections after the tile entities and the closing trailer
    (decoded at src/read.rs:506-538, encoded at src/write.rs:477-535):
    weighted pressure plates, NPC rooms, the bestiary, the journey-mode
    powers, and the trailer that repeats the world's name and id. */
module MiscFormat {
  import opened Structs
  import opened Wire

  /** The bestiary: kill counts by NPC name, then the NPCs seen and the
      NPCs talked to. */
  datatype Bestiary = Bestiary(kills: seq<(Bytes, u32)>, sights: seq<Bytes>, chats: seq<Bytes>)

  // ---------------------------------------------------------------------
  // Decoder
  // ---------------------------------------------------------------------

  /** A pressure plate's x and y. */
  function ReadPlate(s: Bytes): Result<Parsed<(u32, u32)>>
  {
    var x :- ReadU32(s);
    var y :- ReadU32(x.rest);
    Ok(Parsed((x.value, y.value), y.rest))
  }

  function ReadPlates(s: Bytes): Result<Parsed<seq<(u32, u32)>>>
  {
    ReadList32(s, ReadPlate)
  }

  /** An NPC room: the NPC's id, then x and y. */
  function ReadRoom(s: Bytes): Result<Parsed<NpcRoom>>
  {
    var id :- ReadU32(s);
    var x :- ReadU32(id.rest);
    var y :- ReadU32(x.rest);
    Ok(Parsed(NpcRoom(id.value, x.value, y.value), y.rest))
  }

  function ReadRooms(s: Bytes): Result<Parsed<seq<NpcRoom>>>
  {
    ReadList32(s, ReadRoom)
  }

  /** A kill count: the NPC's name, then the count. */
  function ReadKill(s: Bytes): Result<Parsed<(Bytes, u32)>>
  {
    var name :- ReadString(s);
    var count :- ReadU32(name.rest);
    Ok(Parsed((name.value, count.value), count.rest))
  }

  /** Three u32-counted lists: kills, sights, chats. */
  function ReadBestiary(s: Bytes): Result<Parsed<Bestiary>>
  {
    var kills :- ReadList32(s, ReadKill);
    var sights :- ReadList32(kills.rest, ReadString);
    var chats :- ReadList32(sights.rest, ReadString);
    Ok(Parsed(Bestiary(kills.value, sights.value, chats.value), chats.rest))
  }

  /** A power: its u16 tag, then a bool or an f32 as the tag says; any
      other tag aborts. */
  function ReadPower(s: Bytes): (r: Result<Parsed<CreativePower>>)
    ensures r.Ok? ==> |r.value.rest| < |s|
  {
    var tag :- ReadU16(s);
    if tag.value == 0 then
      var on :- ReadBool(tag.rest); Ok(Parsed(FreezeTime(on.value), on.rest))
    else if tag.value == 8 then
      var rate :- ReadU32(tag.rest); Ok(Parsed(TimeRate(rate.value), rate.rest))
    else if tag.value == 9 then
      var on :- ReadBool(tag.rest); Ok(Parsed(FreezeWeather(on.value), on.rest))
    else if tag.value == 10 then
      var on :- ReadBool(tag.rest); Ok(Parsed(FreezeWind(on.value), on.rest))
    else if tag.value == 12 then
      var level :- ReadU32(tag.rest); Ok(Parsed(DifficultySlider(level.value), level.rest))
    else if tag.value == 13 then
      var on :- ReadBool(tag.rest); Ok(Parsed(FreezeSpread(on.value), on.rest))
    else
      Err(UnknownCreativePower(tag.value))
  }

  /** Powers, each announced by `true`, up to a `false`. */
  function ReadPowers(s: Bytes): Result<Parsed<seq<CreativePower>>>
  {
    ReadUntilFalse(s, ReadPower)
  }

  /** `true`, then the world's name and id again; anything else aborts.
      The checks stop at the first disagreement. */
  function ReadTrailer(s: Bytes, name: Bytes, id: u32): (r: Result<Bytes>)
  {
    var flag :- ReadBool(s);
    if !flag.value then Err(TrailerMismatch)
    else
      var again :- ReadString(flag.rest);
      if again.value != name then Err(TrailerMismatch)
      else
        var idAgain :- ReadU32(again.rest);
        if idAgain.value != id then Err(TrailerMismatch)
        else Ok(idAgain.rest)
  }

  // ---------------------------------------------------------------------
  // Encoder
  // ---------------------------------------------------------------------

  function PlateBytes(plate: (u32, u32)): Bytes
  {
    U32Bytes(plate.0) + U32Bytes(plate.1)
  }

  function PlatesBytes(plates: seq<(u32, u32)>): Bytes
  {
    List32Bytes(plates, PlateBytes)
  }

  function RoomBytes(room: NpcRoom): Bytes
  {
    U32Bytes(room.id) + U32Bytes(room.x) + U32Bytes(room.y)
  }

  function RoomsBytes(rooms: seq<NpcRoom>): Bytes
  {
    List32Bytes(rooms, RoomBytes)
  }

  function KillBytes(kill: (Bytes, u32)): Bytes
  {
    StringBytes(kill.0) + U32Bytes(kill.1)
  }

  function BestiaryBytes(b: Bestiary): Bytes
  {
    List32Bytes(b.kills, KillBytes) + List32Bytes(b.sights, StringBytes) + List32Bytes(b.chats, StringBytes)
  }

  /** The tag the encoder writes for a power. */
  function PowerTag(power: CreativePower): (tag: u16)
    ensures tag in {0, 8, 9, 10, 12, 13}
  {
    match power
    case FreezeTime(_) => 0
    case TimeRate(_) => 8
    case FreezeWeather(_) => 9
    case FreezeWind(_) => 10
    case DifficultySlider(_) => 12
    case FreezeSpread(_) => 13
  }

  function PowerBytes(power: CreativePower): Bytes
  {
    U16Bytes(PowerTag(power)) +
    match power
    case FreezeTime(on) => BoolBytes(on)
    case FreezeWeather(on) => BoolBytes(on)
    case FreezeWind(on) => BoolBytes(on)
    case FreezeSpread(on) => BoolBytes(on)
    case TimeRate(rate) => U32Bytes(rate)
    case DifficultySlider(level) => U32Bytes(level)
  }

  /** `true` and the power for each power, then `false`. */
  function PowersBytes(powers: seq<CreativePower>): Bytes
  {
    SentinelBytes(powers, PowerBytes)
  }

  function TrailerBytes(name: Bytes, id: u32): Bytes
  {
    BoolBytes(true) + StringBytes(name) + U32Bytes(id)
  }

  // ---------------------------------------------------------------------
  // Round trips
  // ---------------------------------------------------------------------

  function Same<T>(x: T): T { x }

  lemma PlateRoundTrip(plate: (u32, u32), rest: Bytes)
    ensures ReadPlate(PlateBytes(plate) + rest) == Ok(Parsed(plate, rest))
  {
    Assoc(U32Bytes(plate.0), U32Bytes(plate.1), rest);
    U32RoundTrip(plate.0, U32Bytes(plate.1) + rest);
    U32RoundTrip(plate.1, rest);
  }

  lemma PlatesRoundTrip(plates: seq<(u32, u32)>, rest: Bytes)
    requires |plates| < 0x1_0000_0000
    ensures ReadPlates(PlatesBytes(plates) + rest) == Ok(Parsed(plates, rest))
  {
    forall p, r | p in plates
      ensures ReadPlate(PlateBytes(p) + r) == Ok(Parsed(Same(p), r))
    {
      PlateRoundTrip(p, r);
    }
    List32Decode(plates, PlateBytes, ReadPlate, Same, rest);
    SameList(plates);
  }

  lemma RoomRoundTrip(room: NpcRoom, rest: Bytes)
    ensures ReadRoom(RoomBytes(room) + rest) == Ok(Parsed(room, rest))
  {
    var a, b, c := U32Bytes(room.id), U32Bytes(room.x), U32Bytes(room.y);
    assert RoomBytes(room) + rest == a + (b + (c + rest)) by {
      Assoc(a + b, c, rest);
      Assoc(a, b, c + rest);
    }
    U32RoundTrip(room.id, b + (c + rest));
    U32RoundTrip(room.x, c + rest);
    U32RoundTrip(room.y, rest);
  }

  lemma RoomsRoundTrip(rooms: seq<NpcRoom>, rest: Bytes)
    requires |rooms| < 0x1_0000_0000
    ensures ReadRooms(RoomsBytes(rooms) + rest) == Ok(Parsed(rooms, rest))
  {
    forall room, r | room in rooms
      ensures ReadRoom(RoomBytes(room) + r) == Ok(Parsed(Same(room), r))
    {
      RoomRoundTrip(room, r);
    }
    List32Decode(rooms, RoomBytes, ReadRoom, Same, rest);
    SameList(rooms);
  }

  /** Mapping `Same` over a list gives the list. */
  lemma SameList<T>(xs: seq<T>)
    ensures MapSeq(xs, Same) == xs
  {
    var ys := MapSeq(xs, Same);
    assert forall i :: 0 <= i < |xs| ==> ys[i] == xs[i];
  }

  lemma KillRoundTrip(kill: (Bytes, u32), rest: Bytes)
    requires |kill.0| < 256
    ensures ReadKill(KillBytes(kill) + rest) == Ok(Parsed(kill, rest))
  {
    Assoc(StringBytes(kill.0), U32Bytes(kill.1), rest);
    StringRoundTrip(kill.0, U32Bytes(kill.1) + rest);
    U32RoundTrip(kill.1, rest);
  }

  /** A list of short names comes back unchanged. */
  lemma NamesRoundTrip(names: seq<Bytes>, rest: Bytes)
    requires |names| < 0x1_0000_0000
    requires forall n :: n in names ==> |n| < 256
    ensures ReadList32(List32Bytes(names, StringBytes) + rest, ReadString) == Ok(Parsed(names, rest))
  {
    forall n, r | n in names
      ensures ReadString(StringBytes(n) + r) == Ok(Parsed(Same(n), r))
    {
      StringRoundTrip(n, r);
    }
    List32Decode(names, StringBytes, ReadString, Same, rest);
    SameList(names);
  }

  lemma KillsRoundTrip(kills: seq<(Bytes, u32)>, rest: Bytes)
    requires |kills| < 0x1_0000_0000
    requires forall k :: k in kills ==> |k.0| < 256
    ensures ReadList32(List32Bytes(kills, KillBytes) + rest, ReadKill) == Ok(Parsed(kills, rest))
  {
    forall k, r | k in kills
      ensures ReadKill(KillBytes(k) + r) == Ok(Parsed(Same(k), r))
    {
      KillRoundTrip(k, r);
    }
    List32Decode(kills, KillBytes, ReadKill, Same, rest);
    SameList(kills);
  }

  /** A bestiary whose lists fit their u32 counts and whose names are
      shorter than 256 bytes comes back unchanged. */
  lemma BestiaryRoundTrip(b: Bestiary, rest: Bytes)
    requires |b.kills| < 0x1_0000_0000 && |b.sights| < 0x1_0000_0000 && |b.chats| < 0x1_0000_0000
    requires forall k :: k in b.kills ==> |k.0| < 256
    requires forall n :: n in b.sights ==> |n| < 256
    requires forall n :: n in b.chats ==> |n| < 256
    ensures ReadBestiary(BestiaryBytes(b) + rest) == Ok(Parsed(b, rest))
  {
    var a, s, c := List32Bytes(b.kills, KillBytes), List32Bytes(b.sights, StringBytes), List32Bytes(b.chats, StringBytes);
    assert BestiaryBytes(b) + rest == a + (s + (c + rest)) by {
      Assoc(a + s, c, rest);
      Assoc(a, s, c + rest);
    }
    KillsRoundTrip(b.kills, s + (c + rest));
    NamesRoundTrip(b.sights, c + rest);
    NamesRoundTrip(b.chats, rest);
  }

  lemma PowerRoundTrip(power: CreativePower, rest: Bytes)
    ensures ReadPower(PowerBytes(power) + rest) == Ok(Parsed(power, rest))
  {
    var tag := PowerTag(power);
    var payload := PowerBytes(power)[2..];
    assert PowerBytes(power) == U16Bytes(tag) + payload;
    Assoc(U16Bytes(tag), payload, rest);
    U16RoundTrip(tag, payload + rest);
    match power
    case FreezeTime(on) => BoolRoundTrip(on, rest);
    case FreezeWeather(on) => BoolRoundTrip(on, rest);
    case FreezeWind(on) => BoolRoundTrip(on, rest);
    case FreezeSpread(on) => BoolRoundTrip(on, rest);
    case TimeRate(rate) => U32RoundTrip(rate, rest);
    case DifficultySlider(level) => U32RoundTrip(level, rest);
  }

  /** Every list of powers comes back unchanged. */
  lemma PowersRoundTrip(powers: seq<CreativePower>, rest: Bytes)
    ensures ReadPowers(PowersBytes(powers) + rest) == Ok(Parsed(powers, rest))
  {
    forall p, r | p in powers
      ensures ReadPower(PowerBytes(p) + r) == Ok(Parsed(Same(p), r))
    {
      PowerRoundTrip(p, r);
    }
    SentinelDecode(powers, PowerBytes, ReadPower, Same, rest);
    SameList(powers);
  }

  /** A tag the codec does not know aborts the power list. */
  lemma UnknownPower(tag: u16, rest: Bytes)
    requires tag !in {0, 8, 9, 10, 12, 13}
    ensures ReadPowers(BoolBytes(true) + U16Bytes(tag) + rest) == Err(UnknownCreativePower(tag))
  {
    var body := U16Bytes(tag) + rest;
    Assoc(BoolBytes(true), U16Bytes(tag), rest);
    BoolRoundTrip(true, body);
    U16RoundTrip(tag, rest);
  }

  /** The trailer the encoder writes is accepted exactly when it repeats
      the name and id the decoder read from the header. */
  lemma TrailerIff(written: Bytes, writtenId: u32, name: Bytes, id: u32, rest: Bytes)
    requires |written| < 256
    ensures ReadTrailer(TrailerBytes(written, writtenId) + rest, name, id)
            == if written == name && writtenId == id then Ok(rest) else Err(TrailerMismatch)
  {
    var a, b, c := BoolBytes(true), StringBytes(written), U32Bytes(writtenId);
    assert TrailerBytes(written, writtenId) + rest == a + (b + (c + rest)) by {
      Assoc(a + b, c, rest);
      Assoc(a, b, c + rest);
    }
    BoolRoundTrip(true, b + (c + rest));
    StringRoundTrip(written, c + rest);
    U32RoundTrip(writtenId, rest);
  }

  /** A zero first byte is rejected before anything else is read. */
  lemma TrailerFlag(s: Bytes, name: Bytes, id: u32)
    requires |s| > 0 && s[0] == 0
    ensures ReadTrailer(s, name, id) == Err(TrailerMismatch)
  {
  }
}
