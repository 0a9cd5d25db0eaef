/** Chests, signs and NPCs as `read` consumes them (src/read.rs:375-439).
    Each method is proved against the decoder function of `ChestFormat` or
    `NpcFormat` that describes the same bytes. */
module HoldingsReading {
  import opened Structs
  import opened Wire
  import opened ChestFormat
  import opened NpcFormat
  import opened Reading

  // ---------------------------------------------------------------------
  // Chests (src/read.rs:375-389)
  // ---------------------------------------------------------------------

  /** `let count = r.u16(); (count > 0).then(|| Item { id, prefix, count })` */
  method Slot(r: Reader) returns (res: Result<Option<Item>>)
    modifies r`rest
    ensures Took(ReadSlot(old(r.rest)), res, r.rest)
  {
    var count :- r.U16();
    if count > 0 {
      var id :- r.U32();
      var prefix :- r.U8();
      return Ok(Some(Item(id, prefix, count)));
    }
    return Ok(None);
  }

  /** `(0..n).map(|_| slot).collect()` */
  method Slots(r: Reader, n: nat) returns (res: Result<seq<Option<Item>>>)
    modifies r`rest
    ensures Took(ReadMany(old(r.rest), n, ReadSlot), res, r.rest)
  {
    ghost var goal := ReadMany(r.rest, n, ReadSlot);
    var xs := [];
    var left: nat := n;
    ThenEmpty(goal);
    while left > 0
      invariant goal == Then(xs, ReadMany(r.rest, left, ReadSlot))
      decreases left
    {
      ManyStep(xs, r.rest, left, ReadSlot);
      var x :- Slot(r);
      xs := xs + [x];
      left := left - 1;
    }
    ThenNone(xs, r.rest);
    return Ok(xs);
  }

  /** `Chest { x, y, name, items }`, the 40 slots last. */
  method Chest(r: Reader) returns (res: Result<Structs.Chest>)
    modifies r`rest
    ensures Took(ReadChest(old(r.rest)), res, r.rest)
  {
    var x :- r.U32();
    var y :- r.U32();
    var name :- r.String();
    var items :- Slots(r, SlotsPerChest);
    return Ok(Structs.Chest(name, x, y, items));
  }

  /** The chest count, the slot count (anything but 40 panics), then the
      chests. */
  method Chests(r: Reader) returns (res: Result<seq<Structs.Chest>>)
    modifies r`rest
    ensures Took(ReadChests(old(r.rest)), res, r.rest)
  {
    var num :- r.U16();
    var slots :- r.U16();
    if slots != SlotsPerChest {
      return Err(ChestSlots(slots));
    }
    res := ChestList(r, num, ReadChest);
  }

  /** `item` is the chest decoder.  The link fires only where `ReadChest`
      itself is mentioned, so that the list loop does not unfold the
      chest format. */
  ghost predicate IsChestDecoder(item: Bytes -> Result<Parsed<Structs.Chest>>)
  {
    forall s {:trigger ReadChest(s)} :: item(s) == ReadChest(s)
  }

  /** `(0..num).map(|_| chest).collect()` */
  method ChestList(r: Reader, num: nat, ghost item: Bytes -> Result<Parsed<Structs.Chest>>)
    returns (res: Result<seq<Structs.Chest>>)
    requires IsChestDecoder(item)
    modifies r`rest
    ensures Took(ReadMany(old(r.rest), num, item), res, r.rest)
  {
    ghost var goal := ReadMany(r.rest, num, item);
    var xs := [];
    var left: nat := num;
    ThenEmpty(goal);
    while left > 0
      invariant goal == Then(xs, ReadMany(r.rest, left, item))
      decreases left
    {
      var x :- NextChest(r, xs, left, goal, item);
      xs := xs + [x];
      left := left - 1;
    }
    ThenNone(xs, r.rest);
    return Ok(xs);
  }

  /** One more chest of the list. */
  method NextChest(r: Reader, ghost xs: seq<Structs.Chest>, left: nat, ghost goal: Result<Parsed<seq<Structs.Chest>>>,
                   ghost item: Bytes -> Result<Parsed<Structs.Chest>>)
    returns (res: Result<Structs.Chest>)
    requires IsChestDecoder(item)
    requires left > 0 && goal == Then(xs, ReadMany(r.rest, left, item))
    modifies r`rest
    ensures res.Err? ==> goal == Err(res.error)
    ensures res.Ok? ==> goal == Then(xs + [res.value], ReadMany(r.rest, left - 1, item))
  {
    ghost var s := r.rest;
    res := Chest(r);
    ManyTook(xs, s, left, item, res, r.rest);
  }

  // ---------------------------------------------------------------------
  // Signs (src/read.rs:395)
  // ---------------------------------------------------------------------

  /** `Sign { text, x, y }` */
  method Sign(r: Reader) returns (res: Result<Structs.Sign>)
    modifies r`rest
    ensures Took(ReadSign(old(r.rest)), res, r.rest)
  {
    var text :- r.String();
    var x :- r.U32();
    var y :- r.U32();
    return Ok(Structs.Sign(x, y, text));
  }

  /** `(0..r.u16()).map(|_| sign).collect()` */
  method Signs(r: Reader) returns (res: Result<seq<Structs.Sign>>)
    modifies r`rest
    ensures Took(ReadSigns(old(r.rest)), res, r.rest)
  {
    var num :- r.U16();
    res := SignList(r, num, ReadSign);
  }

  /** `item` is the sign decoder, linked to it only where `ReadSign` itself
      is mentioned. */
  ghost predicate IsSignDecoder(item: Bytes -> Result<Parsed<Structs.Sign>>)
  {
    forall s {:trigger ReadSign(s)} :: item(s) == ReadSign(s)
  }

  /** `num` signs, read one after the other. */
  method SignList(r: Reader, num: nat, ghost item: Bytes -> Result<Parsed<Structs.Sign>>)
    returns (res: Result<seq<Structs.Sign>>)
    requires IsSignDecoder(item)
    modifies r`rest
    ensures Took(ReadMany(old(r.rest), num, item), res, r.rest)
  {
    ghost var goal := ReadMany(r.rest, num, item);
    var xs := [];
    var left: nat := num;
    ThenEmpty(goal);
    while left > 0
      invariant goal == Then(xs, ReadMany(r.rest, left, item))
      decreases left
    {
      var x :- NextSign(r, xs, left, goal, item);
      xs := xs + [x];
      left := left - 1;
    }
    ThenNone(xs, r.rest);
    return Ok(xs);
  }

  /** One more sign of a list of `left` still to read, after `xs`. */
  method NextSign(r: Reader, ghost xs: seq<Structs.Sign>, left: nat, ghost goal: Result<Parsed<seq<Structs.Sign>>>,
                ghost item: Bytes -> Result<Parsed<Structs.Sign>>)
    returns (res: Result<Structs.Sign>)
    requires IsSignDecoder(item)
    requires left > 0 && goal == Then(xs, ReadMany(r.rest, left, item))
    modifies r`rest
    ensures res.Err? ==> goal == Err(res.error)
    ensures res.Ok? ==> goal == Then(xs + [res.value], ReadMany(r.rest, left - 1, item))
  {
    ghost var s := r.rest;
    res := Sign(r);
    ManyTook(xs, s, left, item, res, r.rest);
  }


  // ---------------------------------------------------------------------
  // NPCs (src/read.rs:401-439)
  // ---------------------------------------------------------------------

  /** `match r.bool() { true => r.u32(), false => 0 }` */
  method Variation(r: Reader) returns (res: Result<u32>)
    modifies r`rest
    ensures Took(ReadVariation(old(r.rest)), res, r.rest)
  {
    var varied :- r.Bool();
    if varied {
      res := r.U32();
    } else {
      res := Ok(0);
    }
  }

  /** A town NPC: id, name, position, home, variation; not yet shimmered. */
  method Town(r: Reader) returns (res: Result<Npc>)
    modifies r`rest
    ensures Took(ReadTown(old(r.rest)), res, r.rest)
  {
    var id :- r.U32();
    var name :- r.String();
    var x :- r.U32();
    var y :- r.U32();
    var homeless :- r.Bool();
    var homeX :- r.U32();
    var homeY :- r.U32();
    var variation :- Variation(r);
    return Ok(Npc(id, name, x, y, homeless, homeX, homeY, variation, false, false));
  }

  /** A pillar: id and position, every other field at its default. */
  method Pillar(r: Reader) returns (res: Result<Npc>)
    modifies r`rest
    ensures Took(ReadPillar(old(r.rest)), res, r.rest)
  {
    var id :- r.U32();
    var x :- r.U32();
    var y :- r.U32();
    return Ok(Npc(id, [], x, y, false, 0, 0, 0, false, true));
  }

  /** `while r.bool() { npcs.push(town) }` */
  method Towns(r: Reader) returns (res: Result<seq<Npc>>)
    modifies r`rest
    ensures Took(ReadUntilFalse(old(r.rest), ReadTown), res, r.rest)
  {
    ghost var goal := ReadUntilFalse(r.rest, ReadTown);
    var xs := [];
    ThenEmpty(goal);
    while true
      invariant goal == Then(xs, ReadUntilFalse(r.rest, ReadTown))
      decreases |r.rest|
    {
      UntilStep(xs, r.rest, ReadTown);
      var more :- r.Bool();
      if !more {
        return Ok(xs);
      }
      var x :- Town(r);
      xs := xs + [x];
    }
  }

  /** `while r.bool() { npcs.push(pillar) }` */
  method Pillars(r: Reader) returns (res: Result<seq<Npc>>)
    modifies r`rest
    ensures Took(ReadUntilFalse(old(r.rest), ReadPillar), res, r.rest)
  {
    ghost var goal := ReadUntilFalse(r.rest, ReadPillar);
    var xs := [];
    ThenEmpty(goal);
    while true
      invariant goal == Then(xs, ReadUntilFalse(r.rest, ReadPillar))
      decreases |r.rest|
    {
      UntilStep(xs, r.rest, ReadPillar);
      var more :- r.Bool();
      if !more {
        return Ok(xs);
      }
      var x :- Pillar(r);
      xs := xs + [x];
    }
  }

  /** `for i in shimmered { npcs[i].shimmered = true }`: an index past the
      town NPCs panics. */
  method Mark(npcs: seq<Npc>, indices: seq<u32>) returns (res: Result<seq<Npc>>)
    ensures res == MarkShimmered(npcs, indices)
  {
    var marked := npcs;
    var k := 0;
    while k < |indices|
      invariant k <= |indices|
      invariant MarkShimmered(npcs, indices) == MarkShimmered(marked, indices[k..])
    {
      assert indices[k..][1..] == indices[k + 1..];
      var i := indices[k];
      if i >= |marked| {
        return Err(ShimmeredIndex(i));
      }
      marked := marked[i := marked[i].(shimmered := true)];
      k := k + 1;
    }
    return Ok(marked);
  }

  /** The shimmered indices, the town NPCs, the marks, then the pillars
      appended after the towns. */
  method Npcs(r: Reader) returns (res: Result<seq<Npc>>)
    modifies r`rest
    ensures Took(ReadNpcs(old(r.rest)), res, r.rest)
  {
    var n :- r.U32();
    var shimmered :- r.U32s(n);
    var towns :- Towns(r);
    var marked :- Mark(towns, shimmered);
    var pillars :- Pillars(r);
    return Ok(marked + pillars);
  }
}
