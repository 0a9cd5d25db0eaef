/** Tile entities, pressure plates, NPC rooms, the bestiary, the creative
    powers and the trailer as `read` consumes them (src/read.rs:444-538).
    Each method is proved against the decoder function of `EntityFormat`
    or `MiscFormat` that describes the same bytes. */
module FixturesReading {
  import opened Structs
  import opened Wire
  import Arith
  import opened EntityFormat
  import opened MiscFormat
  import opened Reading

  // ---------------------------------------------------------------------
  // Tile entities (src/read.rs:444-501)
  // ---------------------------------------------------------------------

  /** `Item { id: r.u16() as u32, prefix: r.u8(), count: r.u16() }` */
  method Stored(r: Reader) returns (res: Result<Item>)
    modifies r`rest
    ensures Took(ReadStored(old(r.rest)), res, r.rest)
  {
    var id :- r.U16();
    var prefix :- r.U8();
    var count :- r.U16();
    return Ok(Item(id, prefix, count));
  }

  /** id, prefix and count, then `(count > 0).then(..)`. */
  method Held(r: Reader) returns (res: Result<Option<Item>>)
    modifies r`rest
    ensures Took(ReadHeld(old(r.rest)), res, r.rest)
  {
    var item :- Stored(r);
    if item.count > 0 {
      return Ok(Some(item));
    }
    return Ok(None);
  }

  /** One more slot of a masked rack: a marked slot reads a stored item,
      an unmarked one reads nothing. */
  lemma SlotsStep(xs: seq<Option<Item>>, s: Bytes, mask: nat, i: nat, n: nat)
    requires i < n
    ensures Arith.Bit(mask, i) && ReadStored(s).Err?
            ==> Then(xs, ReadSlots(s, mask, i, n)) == Err(ReadStored(s).error)
    ensures Arith.Bit(mask, i) && ReadStored(s).Ok?
            ==> Then(xs, ReadSlots(s, mask, i, n))
                == Then(xs + [Some(ReadStored(s).value.value)], ReadSlots(ReadStored(s).value.rest, mask, i + 1, n))
    ensures !Arith.Bit(mask, i)
            ==> Then(xs, ReadSlots(s, mask, i, n)) == Then(xs + [None], ReadSlots(s, mask, i + 1, n))
  {
    if Arith.Bit(mask, i) {
      var item := ReadStored(s);
      if item.Ok? {
        var more := ReadSlots(item.value.rest, mask, i + 1, n);
        if more.Ok? {
          assert xs + ([Some(item.value.value)] + more.value.value)
              == (xs + [Some(item.value.value)]) + more.value.value;
        }
      }
    } else {
      var more := ReadSlots(s, mask, i + 1, n);
      if more.Ok? {
        assert xs + ([None] + more.value.value) == (xs + [None]) + more.value.value;
      }
    }
  }

  /** `let mut buffer = [None; n]; for item in (0..n).map(..) { buffer[i] =
      item; i += 1 }`: slot `i` is read when bit `i` of `mask` is set. */
  method Rack(r: Reader, mask: nat, n: nat) returns (res: Result<seq<Option<Item>>>)
    modifies r`rest
    ensures Took(ReadSlots(old(r.rest), mask, 0, n), res, r.rest)
  {
    var buffer := new Option<Item>[n](_ => None);
    ghost var goal := ReadSlots(r.rest, mask, 0, n);
    var i := 0;
    ThenEmpty(goal);
    while i < n
      invariant i <= n && goal == Then(buffer[..i], ReadSlots(r.rest, mask, i, n))
    {
      SlotsStep(buffer[..i], r.rest, mask, i, n);
      var item := None;
      if Arith.Bit(mask, i) {
        var stored :- Stored(r);
        item := Some(stored);
      }
      ghost var before := buffer[..i];
      buffer[i] := item;
      assert buffer[..i + 1] == before + [item];
      i := i + 1;
    }
    assert buffer[..] == buffer[..n];
    ThenNone(buffer[..], r.rest);
    return Ok(buffer[..]);
  }

  /** The payload of an entity of kind `tag` (the `match t`); any other
      kind panics. */
  method Info(r: Reader, tag: byte) returns (res: Result<TileEntityInfo>)
    modifies r`rest
    ensures Took(ReadInfo(tag, old(r.rest)), res, r.rest)
  {
    if tag == 0 {
      var npc :- r.U16();
      return Ok(TargetDummy(npc));
    } else if tag == 1 {
      var held :- Held(r);
      return Ok(ItemFrame(held));
    } else if tag == 2 {
      var check :- r.U8();
      var on :- r.Bool();
      return Ok(LogicSensor(check, on));
    } else if tag == 3 {
      var mask :- r.U16();
      var slots :- Rack(r, mask, 16);
      return Ok(Mannequin(slots));
    } else if tag == 4 {
      var held :- Held(r);
      return Ok(WeaponRack(held));
    } else if tag == 5 {
      var mask :- r.U8();
      var hats :- Rack(r, mask as nat, 4);
      return Ok(HatRack(hats));
    } else if tag == 6 {
      var held :- Held(r);
      return Ok(FoodPlatter(held));
    } else if tag == 7 {
      return Ok(Pylon);
    }
    return Err(UnknownTileEntity(tag));
  }

  /** The kind byte, id, x and y, then the payload. */
  method Entity(r: Reader) returns (res: Result<TileEntity>)
    modifies r`rest
    ensures Took(ReadEntity(old(r.rest)), res, r.rest)
  {
    var tag :- r.U8();
    var id :- r.U32();
    var x :- r.U16();
    var y :- r.U16();
    var info :- Info(r, tag);
    return Ok(TileEntity(id, x, y, info));
  }

  /** `(0..r.u32()).map(|_| entity).collect()` */
  method Entities(r: Reader) returns (res: Result<seq<TileEntity>>)
    modifies r`rest
    ensures Took(ReadEntities(old(r.rest)), res, r.rest)
  {
    var num :- r.U32();
    res := EntityList(r, num, ReadEntity);
  }

  /** `item` is the entity decoder.  The link is used only where the
      decoder itself is mentioned, so that the list loop reasons about
      `item` without unfolding the decoder's many cases. */
  ghost predicate IsEntityDecoder(item: Bytes -> Result<Parsed<TileEntity>>)
  {
    forall s {:trigger ReadEntity(s)} :: item(s) == ReadEntity(s)
  }

  /** `num` tile entities, read one after the other. */
  method EntityList(r: Reader, num: nat, ghost item: Bytes -> Result<Parsed<TileEntity>>)
    returns (res: Result<seq<TileEntity>>)
    requires IsEntityDecoder(item)
    modifies r`rest
    ensures Took(ReadMany(old(r.rest), num, item), res, r.rest)
  {
    ghost var goal := ReadMany(r.rest, num, item);
    var xs := [];
    var left: nat := num;
    ThenEmpty(goal);
    while left > 0
      invariant goal == Then(xs, ReadMany(r.rest, left, item))
      decreases left
    {
      var x :- NextEntity(r, xs, left, goal, item);
      xs := xs + [x];
      left := left - 1;
    }
    ThenNone(xs, r.rest);
    return Ok(xs);
  }

  /** One more entity of a list of `left` still to read, after `xs`. */
  method NextEntity(r: Reader, ghost xs: seq<TileEntity>, left: nat, ghost goal: Result<Parsed<seq<TileEntity>>>,
                    ghost item: Bytes -> Result<Parsed<TileEntity>>)
    returns (res: Result<TileEntity>)
    requires IsEntityDecoder(item)
    requires left > 0 && goal == Then(xs, ReadMany(r.rest, left, item))
    modifies r`rest
    ensures res.Err? ==> goal == Err(res.error)
    ensures res.Ok? ==> goal == Then(xs + [res.value], ReadMany(r.rest, left - 1, item))
  {
    ghost var s := r.rest;
    res := Entity(r);
    ManyTook(xs, s, left, item, res, r.rest);
  }

  // ---------------------------------------------------------------------
  // Pressure plates and NPC rooms (src/read.rs:506, 511)
  // ---------------------------------------------------------------------

  /** `(r.u32(), r.u32())` */
  method Plate(r: Reader) returns (res: Result<(u32, u32)>)
    modifies r`rest
    ensures Took(ReadPlate(old(r.rest)), res, r.rest)
  {
    var x :- r.U32();
    var y :- r.U32();
    return Ok((x, y));
  }

  method Plates(r: Reader) returns (res: Result<seq<(u32, u32)>>)
    modifies r`rest
    ensures Took(ReadPlates(old(r.rest)), res, r.rest)
  {
    var num :- r.U32();
    res := PlateList(r, num, ReadPlate);
  }

  /** `item` is the pressure plate decoder, linked to it only where `ReadPlate` itself
      is mentioned. */
  ghost predicate IsPlateDecoder(item: Bytes -> Result<Parsed<(u32, u32)>>)
  {
    forall s {:trigger ReadPlate(s)} :: item(s) == ReadPlate(s)
  }

  /** `num` pressure plates, read one after the other. */
  method PlateList(r: Reader, num: nat, ghost item: Bytes -> Result<Parsed<(u32, u32)>>)
    returns (res: Result<seq<(u32, u32)>>)
    requires IsPlateDecoder(item)
    modifies r`rest
    ensures Took(ReadMany(old(r.rest), num, item), res, r.rest)
  {
    ghost var goal := ReadMany(r.rest, num, item);
    var xs := [];
    var left: nat := num;
    ThenEmpty(goal);
    while left > 0
      invariant goal == Then(xs, ReadMany(r.rest, left, item))
      decreases left
    {
      var x :- NextPlate(r, xs, left, goal, item);
      xs := xs + [x];
      left := left - 1;
    }
    ThenNone(xs, r.rest);
    return Ok(xs);
  }

  /** One more pressure plate of a list of `left` still to read, after `xs`. */
  method NextPlate(r: Reader, ghost xs: seq<(u32, u32)>, left: nat, ghost goal: Result<Parsed<seq<(u32, u32)>>>,
                 ghost item: Bytes -> Result<Parsed<(u32, u32)>>)
    returns (res: Result<(u32, u32)>)
    requires IsPlateDecoder(item)
    requires left > 0 && goal == Then(xs, ReadMany(r.rest, left, item))
    modifies r`rest
    ensures res.Err? ==> goal == Err(res.error)
    ensures res.Ok? ==> goal == Then(xs + [res.value], ReadMany(r.rest, left - 1, item))
  {
    ghost var s := r.rest;
    res := Plate(r);
    ManyTook(xs, s, left, item, res, r.rest);
  }


  /** `NPCRoom { id, x, y }` */
  method Room(r: Reader) returns (res: Result<NpcRoom>)
    modifies r`rest
    ensures Took(ReadRoom(old(r.rest)), res, r.rest)
  {
    var id :- r.U32();
    var x :- r.U32();
    var y :- r.U32();
    return Ok(NpcRoom(id, x, y));
  }

  method Rooms(r: Reader) returns (res: Result<seq<NpcRoom>>)
    modifies r`rest
    ensures Took(ReadRooms(old(r.rest)), res, r.rest)
  {
    var num :- r.U32();
    res := RoomList(r, num, ReadRoom);
  }

  /** `item` is the room decoder, linked to it only where `ReadRoom` itself
      is mentioned. */
  ghost predicate IsRoomDecoder(item: Bytes -> Result<Parsed<NpcRoom>>)
  {
    forall s {:trigger ReadRoom(s)} :: item(s) == ReadRoom(s)
  }

  /** `num` rooms, read one after the other. */
  method RoomList(r: Reader, num: nat, ghost item: Bytes -> Result<Parsed<NpcRoom>>)
    returns (res: Result<seq<NpcRoom>>)
    requires IsRoomDecoder(item)
    modifies r`rest
    ensures Took(ReadMany(old(r.rest), num, item), res, r.rest)
  {
    ghost var goal := ReadMany(r.rest, num, item);
    var xs := [];
    var left: nat := num;
    ThenEmpty(goal);
    while left > 0
      invariant goal == Then(xs, ReadMany(r.rest, left, item))
      decreases left
    {
      var x :- NextRoom(r, xs, left, goal, item);
      xs := xs + [x];
      left := left - 1;
    }
    ThenNone(xs, r.rest);
    return Ok(xs);
  }

  /** One more room of a list of `left` still to read, after `xs`. */
  method NextRoom(r: Reader, ghost xs: seq<NpcRoom>, left: nat, ghost goal: Result<Parsed<seq<NpcRoom>>>,
                ghost item: Bytes -> Result<Parsed<NpcRoom>>)
    returns (res: Result<NpcRoom>)
    requires IsRoomDecoder(item)
    requires left > 0 && goal == Then(xs, ReadMany(r.rest, left, item))
    modifies r`rest
    ensures res.Err? ==> goal == Err(res.error)
    ensures res.Ok? ==> goal == Then(xs + [res.value], ReadMany(r.rest, left - 1, item))
  {
    ghost var s := r.rest;
    res := Room(r);
    ManyTook(xs, s, left, item, res, r.rest);
  }


  // ---------------------------------------------------------------------
  // The bestiary (src/read.rs:516-518)
  // ---------------------------------------------------------------------

  /** `(r.string(), r.u32())` */
  method Kill(r: Reader) returns (res: Result<(Bytes, u32)>)
    modifies r`rest
    ensures Took(ReadKill(old(r.rest)), res, r.rest)
  {
    var name :- r.String();
    var count :- r.U32();
    return Ok((name, count));
  }

  /** `item` is the kill decoder, linked to it only where `ReadKill` itself
      is mentioned. */
  ghost predicate IsKillDecoder(item: Bytes -> Result<Parsed<(Bytes, u32)>>)
  {
    forall s {:trigger ReadKill(s)} :: item(s) == ReadKill(s)
  }

  /** `num` kills, read one after the other. */
  method KillList(r: Reader, num: nat, ghost item: Bytes -> Result<Parsed<(Bytes, u32)>>)
    returns (res: Result<seq<(Bytes, u32)>>)
    requires IsKillDecoder(item)
    modifies r`rest
    ensures Took(ReadMany(old(r.rest), num, item), res, r.rest)
  {
    ghost var goal := ReadMany(r.rest, num, item);
    var xs := [];
    var left: nat := num;
    ThenEmpty(goal);
    while left > 0
      invariant goal == Then(xs, ReadMany(r.rest, left, item))
      decreases left
    {
      var x :- NextKill(r, xs, left, goal, item);
      xs := xs + [x];
      left := left - 1;
    }
    ThenNone(xs, r.rest);
    return Ok(xs);
  }

  /** One more kill of a list of `left` still to read, after `xs`. */
  method NextKill(r: Reader, ghost xs: seq<(Bytes, u32)>, left: nat, ghost goal: Result<Parsed<seq<(Bytes, u32)>>>,
                ghost item: Bytes -> Result<Parsed<(Bytes, u32)>>)
    returns (res: Result<(Bytes, u32)>)
    requires IsKillDecoder(item)
    requires left > 0 && goal == Then(xs, ReadMany(r.rest, left, item))
    modifies r`rest
    ensures res.Err? ==> goal == Err(res.error)
    ensures res.Ok? ==> goal == Then(xs + [res.value], ReadMany(r.rest, left - 1, item))
  {
    ghost var s := r.rest;
    res := Kill(r);
    ManyTook(xs, s, left, item, res, r.rest);
  }

  /** The kills, then the sights and the chats, each list u32-counted. */
  method Bestiary(r: Reader) returns (res: Result<MiscFormat.Bestiary>)
    modifies r`rest
    ensures Took(ReadBestiary(old(r.rest)), res, r.rest)
  {
    var num :- r.U32();
    var kills :- KillList(r, num, ReadKill);
    var numSights :- r.U32();
    var sights :- r.Strings(numSights);
    var numChats :- r.U32();
    var chats :- r.Strings(numChats);
    return Ok(MiscFormat.Bestiary(kills, sights, chats));
  }

  // ---------------------------------------------------------------------
  // Creative powers and the trailer (src/read.rs:523-538)
  // ---------------------------------------------------------------------

  /** `match r.u16() { .. }`: a bool or an f32 as the tag says; any other
      tag panics. */
  method Power(r: Reader) returns (res: Result<CreativePower>)
    modifies r`rest
    ensures Took(ReadPower(old(r.rest)), res, r.rest)
  {
    var tag :- r.U16();
    if tag == 0 {
      var on :- r.Bool();
      return Ok(FreezeTime(on));
    } else if tag == 8 {
      var rate :- r.U32();
      return Ok(TimeRate(rate));
    } else if tag == 9 {
      var on :- r.Bool();
      return Ok(FreezeWeather(on));
    } else if tag == 10 {
      var on :- r.Bool();
      return Ok(FreezeWind(on));
    } else if tag == 12 {
      var level :- r.U32();
      return Ok(DifficultySlider(level));
    } else if tag == 13 {
      var on :- r.Bool();
      return Ok(FreezeSpread(on));
    }
    return Err(UnknownCreativePower(tag));
  }

  /** `while r.bool() { creative_powers.push(power) }` */
  method Powers(r: Reader) returns (res: Result<seq<CreativePower>>)
    modifies r`rest
    ensures Took(ReadPowers(old(r.rest)), res, r.rest)
  {
    ghost var goal := ReadUntilFalse(r.rest, ReadPower);
    var xs := [];
    ThenEmpty(goal);
    while true
      invariant goal == Then(xs, ReadUntilFalse(r.rest, ReadPower))
      decreases |r.rest|
    {
      UntilStep(xs, r.rest, ReadPower);
      var more :- r.Bool();
      if !more {
        return Ok(xs);
      }
      var x :- Power(r);
      xs := xs + [x];
    }
  }

  /** `if !r.bool() || r.string() != name || r.u32() != id { panic!() }`:
      the checks stop at the first one that fails. */
  method Trailer(r: Reader, name: Bytes, id: u32) returns (res: Result<()>)
    modifies r`rest
    ensures match ReadTrailer(old(r.rest), name, id)
            case Ok(rest) => res == Ok(()) && r.rest == rest
            case Err(e) => res == Err(e)
  {
    var flag :- r.Bool();
    if !flag {
      return Err(TrailerMismatch);
    }
    var again :- r.String();
    if again != name {
      return Err(TrailerMismatch);
    }
    var idAgain :- r.U32();
    if idAgain != id {
      return Err(TrailerMismatch);
    }
    return Ok(());
  }
}
