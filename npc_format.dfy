/** The NPC section (decoded at src/read.rs:401-447, encoded at
    src/write.rs:386-420).

    The encoder writes the ids of the shimmered NPCs, then every town NPC,
    then every pillar, each list closed by `false`.  The decoder reads the
    same list of numbers but uses them as positions in the list of town
    NPCs it has just read, and aborts on one that is out of range.  Pillars
    carry only id and position, so their other fields come back at their
    defaults, and pillars always come back after every town NPC. */
module NpcFormat {
  import opened Structs
  import opened Wire

  // ---------------------------------------------------------------------
  // Decoder
  // ---------------------------------------------------------------------

  /** The optional variation: a flag, then the index when the flag is set. */
  function ReadVariation(s: Bytes): (r: Result<Parsed<u32>>)
    ensures r.Ok? ==> |r.value.rest| < |s|
  {
    var varied :- ReadBool(s);
    if varied.value then ReadU32(varied.rest) else Ok(Parsed(0, varied.rest))
  }

  /** id, name, x, y, homeless, home_x, home_y, variation. */
  function ReadTown(s: Bytes): (r: Result<Parsed<Npc>>)
    ensures r.Ok? ==> |r.value.rest| < |s|
  {
    var id :- ReadU32(s);
    var name :- ReadString(id.rest);
    var x :- ReadU32(name.rest);
    var y :- ReadU32(x.rest);
    var homeless :- ReadBool(y.rest);
    var homeX :- ReadU32(homeless.rest);
    var homeY :- ReadU32(homeX.rest);
    var variation :- ReadVariation(homeY.rest);
    Ok(Parsed(Npc(id.value, name.value, x.value, y.value, homeless.value, homeX.value, homeY.value,
                  variation.value, false, false), variation.rest))
  }

  /** id, x, y; every other field at its default. */
  function ReadPillar(s: Bytes): (r: Result<Parsed<Npc>>)
    ensures r.Ok? ==> |r.value.rest| < |s|
  {
    var id :- ReadU32(s);
    var x :- ReadU32(id.rest);
    var y :- ReadU32(x.rest);
    Ok(Parsed(Npc(id.value, [], x.value, y.value, false, 0, 0, 0, false, true), y.rest))
  }

  /** `npcs[i].shimmered = true` for every `i` in turn; the first `i` out of
      range aborts. */
  function MarkShimmered(npcs: seq<Npc>, indices: seq<u32>): Result<seq<Npc>>
    decreases |indices|
  {
    if indices == [] then Ok(npcs)
    else if indices[0] >= |npcs| then Err(ShimmeredIndex(indices[0]))
    else MarkShimmered(npcs[indices[0] := npcs[indices[0]].(shimmered := true)], indices[1..])
  }

  /** The shimmered list, the town NPCs, the marks, then the pillars. */
  function ReadNpcs(s: Bytes): Result<Parsed<seq<Npc>>>
  {
    var shimmered :- ReadList32(s, ReadU32);
    var towns :- ReadUntilFalse(shimmered.rest, ReadTown);
    var marked :- MarkShimmered(towns.value, shimmered.value);
    var pillars :- ReadUntilFalse(towns.rest, ReadPillar);
    Ok(Parsed(marked + pillars.value, pillars.rest))
  }

  // ---------------------------------------------------------------------
  // Encoder
  // ---------------------------------------------------------------------

  /** The ids of the shimmered NPCs, in list order. */
  function ShimmeredIds(npcs: seq<Npc>): seq<u32>
  {
    if npcs == [] then []
    else (if npcs[0].shimmered then [npcs[0].id] else []) + ShimmeredIds(npcs[1..])
  }

  function Towns(npcs: seq<Npc>): seq<Npc>
  {
    if npcs == [] then []
    else (if npcs[0].isPillar then [] else [npcs[0]]) + Towns(npcs[1..])
  }

  function Pillars(npcs: seq<Npc>): seq<Npc>
  {
    if npcs == [] then []
    else (if npcs[0].isPillar then [npcs[0]] else []) + Pillars(npcs[1..])
  }

  /** `Towns` keeps exactly the NPCs of `npcs` that are not pillars, and
      `Pillars` the ones that are. */
  lemma {:induction false} SplitMembers(npcs: seq<Npc>)
    ensures forall npc :: npc in Towns(npcs) <==> npc in npcs && !npc.isPillar
    ensures forall npc :: npc in Pillars(npcs) <==> npc in npcs && npc.isPillar
  {
    if npcs != [] {
      SplitMembers(npcs[1..]);
      assert npcs == [npcs[0]] + npcs[1..];
    }
  }

  /** A zero variation is written as `false` alone. */
  function VariationBytes(variation: u32): Bytes
  {
    if variation == 0 then BoolBytes(false) else BoolBytes(true) + U32Bytes(variation)
  }

  function TownBytes(npc: Npc): Bytes
  {
    U32Bytes(npc.id) + StringBytes(npc.name) + U32Bytes(npc.x) + U32Bytes(npc.y) + BoolBytes(npc.homeless)
    + U32Bytes(npc.homeX) + U32Bytes(npc.homeY) + VariationBytes(npc.variationIndex)
  }

  function PillarBytes(npc: Npc): Bytes
  {
    U32Bytes(npc.id) + U32Bytes(npc.x) + U32Bytes(npc.y)
  }

  function NpcsBytes(npcs: seq<Npc>): Bytes
  {
    List32Bytes(ShimmeredIds(npcs), U32Bytes) + SentinelBytes(Towns(npcs), TownBytes)
    + SentinelBytes(Pillars(npcs), PillarBytes)
  }

  // ---------------------------------------------------------------------
  // Properties
  // ---------------------------------------------------------------------

  /** The marks succeed exactly when every index is in range, and then
      mark exactly the listed positions. */
  lemma {:induction false} MarkShimmeredSpec(npcs: seq<Npc>, indices: seq<u32>)
    ensures MarkShimmered(npcs, indices).Ok? <==> forall i :: 0 <= i < |indices| ==> indices[i] < |npcs|
    ensures MarkShimmered(npcs, indices).Ok? ==>
              var marked := MarkShimmered(npcs, indices).value;
              |marked| == |npcs| &&
              forall j :: 0 <= j < |npcs| ==>
                marked[j] == npcs[j].(shimmered := npcs[j].shimmered || j in indices)
    decreases |indices|
  {
    if indices != [] && indices[0] < |npcs| {
      var i := indices[0];
      var next := npcs[i := npcs[i].(shimmered := true)];
      MarkShimmeredSpec(next, indices[1..]);
      assert forall k :: 0 <= k < |indices| - 1 ==> indices[1..][k] == indices[k + 1];
      assert forall j :: j in indices <==> j == i || j in indices[1..];
    }
  }

  /** The first index out of range is the one reported. */
  lemma {:induction false} MarkShimmeredError(npcs: seq<Npc>, indices: seq<u32>, k: nat)
    requires k < |indices| && indices[k] >= |npcs|
    requires forall i :: 0 <= i < k ==> indices[i] < |npcs|
    ensures MarkShimmered(npcs, indices) == Err(ShimmeredIndex(indices[k]))
    decreases k
  {
    if k > 0 {
      var i := indices[0];
      MarkShimmeredError(npcs[i := npcs[i].(shimmered := true)], indices[1..], k - 1);
    }
  }

  /** A town NPC as the decoder rebuilds it. */
  function TownRead(npc: Npc): Npc
  {
    npc.(shimmered := false, isPillar := false)
  }

  /** A pillar as the decoder rebuilds it: id and position only. */
  function PillarRead(npc: Npc): Npc
  {
    Npc(npc.id, [], npc.x, npc.y, false, 0, 0, 0, false, true)
  }

  lemma VariationRoundTrip(variation: u32, rest: Bytes)
    ensures ReadVariation(VariationBytes(variation) + rest) == Ok(Parsed(variation, rest))
  {
    if variation == 0 {
      BoolRoundTrip(false, rest);
    } else {
      assert VariationBytes(variation) + rest == BoolBytes(true) + (U32Bytes(variation) + rest) by {
        Assoc(BoolBytes(true), U32Bytes(variation), rest);
      }
      BoolRoundTrip(true, U32Bytes(variation) + rest);
      U32RoundTrip(variation, rest);
    }
  }

  lemma TownDecode(npc: Npc, rest: Bytes)
    requires |npc.name| < 256
    ensures ReadTown(TownBytes(npc) + rest) == Ok(Parsed(TownRead(npc), rest))
  {
    var s7 := VariationBytes(npc.variationIndex) + rest;
    var s6 := U32Bytes(npc.homeY) + s7;
    var s5 := U32Bytes(npc.homeX) + s6;
    var s4 := BoolBytes(npc.homeless) + s5;
    var s3 := U32Bytes(npc.y) + s4;
    var s2 := U32Bytes(npc.x) + s3;
    var s1 := StringBytes(npc.name) + s2;
    var a, b, c, d := U32Bytes(npc.id), StringBytes(npc.name), U32Bytes(npc.x), U32Bytes(npc.y);
    var e, f, g, h := BoolBytes(npc.homeless), U32Bytes(npc.homeX), U32Bytes(npc.homeY), VariationBytes(npc.variationIndex);
    assert TownBytes(npc) + rest == a + s1 by {
      Assoc(a + b + c + d + e + f + g, h, rest);
      Assoc(a + b + c + d + e + f, g, s7);
      Assoc(a + b + c + d + e, f, s6);
      Assoc(a + b + c + d, e, s5);
      Assoc(a + b + c, d, s4);
      Assoc(a + b, c, s3);
      Assoc(a, b, s2);
    }
    U32RoundTrip(npc.id, s1);
    StringRoundTrip(npc.name, s2);
    U32RoundTrip(npc.x, s3);
    U32RoundTrip(npc.y, s4);
    BoolRoundTrip(npc.homeless, s5);
    U32RoundTrip(npc.homeX, s6);
    U32RoundTrip(npc.homeY, s7);
    VariationRoundTrip(npc.variationIndex, rest);
  }

  lemma PillarDecode(npc: Npc, rest: Bytes)
    ensures ReadPillar(PillarBytes(npc) + rest) == Ok(Parsed(PillarRead(npc), rest))
  {
    var s2 := U32Bytes(npc.y) + rest;
    var s1 := U32Bytes(npc.x) + s2;
    assert PillarBytes(npc) + rest == U32Bytes(npc.id) + s1 by {
      Assoc(U32Bytes(npc.id) + U32Bytes(npc.x), U32Bytes(npc.y), rest);
      Assoc(U32Bytes(npc.id), U32Bytes(npc.x), s2);
    }
    U32RoundTrip(npc.id, s1);
    U32RoundTrip(npc.x, s2);
    U32RoundTrip(npc.y, rest);
  }

  lemma TownsDecode(towns: seq<Npc>, rest: Bytes)
    requires forall npc :: npc in towns ==> |npc.name| < 256
    ensures ReadUntilFalse(SentinelBytes(towns, TownBytes) + rest, ReadTown) == Ok(Parsed(MapSeq(towns, TownRead), rest))
  {
    forall npc, r | npc in towns
      ensures ReadTown(TownBytes(npc) + r) == Ok(Parsed(TownRead(npc), r))
    {
      TownDecode(npc, r);
    }
    SentinelDecode(towns, TownBytes, ReadTown, TownRead, rest);
  }

  lemma PillarsDecode(pillars: seq<Npc>, rest: Bytes)
    ensures ReadUntilFalse(SentinelBytes(pillars, PillarBytes) + rest, ReadPillar) == Ok(Parsed(MapSeq(pillars, PillarRead), rest))
  {
    forall npc, r | npc in pillars
      ensures ReadPillar(PillarBytes(npc) + r) == Ok(Parsed(PillarRead(npc), r))
    {
      PillarDecode(npc, r);
    }
    SentinelDecode(pillars, PillarBytes, ReadPillar, PillarRead, rest);
  }

  lemma IdsDecode(ids: seq<u32>, rest: Bytes)
    requires |ids| < 0x1_0000_0000
    ensures ReadList32(List32Bytes(ids, U32Bytes) + rest, ReadU32) == Ok(Parsed(ids, rest))
  {
    forall x, r | x in ids
      ensures ReadU32(U32Bytes(x) + r) == Ok(Parsed(x, r))
    {
      U32RoundTrip(x, r);
    }
    List32Decode(ids, U32Bytes, ReadU32, (x: u32) => x, rest);
    assert MapSeq(ids, (x: u32) => x) == ids;
  }

  /** What the decoder makes of the section the encoder writes: the town
      NPCs, marked at the positions named by the shimmered NPCs' ids, then
      the pillars with their defaults. */
  function NpcsRead(npcs: seq<Npc>): Result<seq<Npc>>
  {
    var marked :- MarkShimmered(MapSeq(Towns(npcs), TownRead), ShimmeredIds(npcs));
    Ok(marked + MapSeq(Pillars(npcs), PillarRead))
  }

  lemma NpcsDecode(npcs: seq<Npc>, rest: Bytes)
    requires |ShimmeredIds(npcs)| < 0x1_0000_0000
    requires forall npc :: npc in npcs && !npc.isPillar ==> |npc.name| < 256
    ensures ReadNpcs(NpcsBytes(npcs) + rest)
            == match NpcsRead(npcs) case Ok(decoded) => Ok(Parsed(decoded, rest)) case Err(e) => Err(e)
  {
    var ids, towns, pillars := ShimmeredIds(npcs), Towns(npcs), Pillars(npcs);
    SplitMembers(npcs);
    var a, b, c := List32Bytes(ids, U32Bytes), SentinelBytes(towns, TownBytes), SentinelBytes(pillars, PillarBytes);
    var s2 := c + rest;
    var s1 := b + s2;
    assert NpcsBytes(npcs) + rest == a + s1 by {
      Assoc(a + b, c, rest);
      Assoc(a, b, s2);
    }
    IdsDecode(ids, s1);
    TownsDecode(towns, s2);
    PillarsDecode(pillars, rest);
  }

  /** No pillar comes before a town NPC. */
  predicate TownsFirst(npcs: seq<Npc>)
  {
    forall i, j :: 0 <= i < j < |npcs| && npcs[i].isPillar ==> npcs[j].isPillar
  }

  /** Every shimmered NPC is a town NPC whose id is its own position. */
  predicate ShimmeredAtOwnIndex(npcs: seq<Npc>)
  {
    forall j :: 0 <= j < |npcs| && npcs[j].shimmered ==> !npcs[j].isPillar && npcs[j].id == j
  }

  /** A list whose pillars come last and carry only their defaults, and
      whose shimmered NPCs are listed at their own id, comes back
      unchanged. */
  lemma NpcsRoundTrip(npcs: seq<Npc>, rest: Bytes)
    requires |npcs| < 0x1_0000_0000
    requires forall npc :: npc in npcs && !npc.isPillar ==> |npc.name| < 256
    requires forall npc :: npc in npcs && npc.isPillar ==> PillarRead(npc) == npc
    requires TownsFirst(npcs) && ShimmeredAtOwnIndex(npcs)
    ensures ReadNpcs(NpcsBytes(npcs) + rest) == Ok(Parsed(npcs, rest))
  {
    ShimmeredIdsBound(npcs);
    NpcsDecode(npcs, rest);
    TownsThenPillars(npcs);
    TownsMarked(npcs);
    SplitMembers(npcs);
    PillarsUnchanged(Pillars(npcs));
  }

  lemma PillarsUnchanged(pillars: seq<Npc>)
    requires forall npc :: npc in pillars ==> PillarRead(npc) == npc
    ensures MapSeq(pillars, PillarRead) == pillars
  {
    forall j | 0 <= j < |pillars|
      ensures MapSeq(pillars, PillarRead)[j] == pillars[j]
    {
      assert pillars[j] in pillars;
    }
  }

  /** The marks restore exactly the town NPCs' own flags. */
  lemma TownsMarked(npcs: seq<Npc>)
    requires TownsFirst(npcs) && ShimmeredAtOwnIndex(npcs)
    ensures MarkShimmered(MapSeq(Towns(npcs), TownRead), ShimmeredIds(npcs)) == Ok(Towns(npcs))
  {
    var towns, ids := Towns(npcs), ShimmeredIds(npcs);
    var read := MapSeq(towns, TownRead);
    TownsThenPillars(npcs);
    TownsPrefix(npcs);
    ShimmeredMarks(npcs);
    MarkShimmeredSpec(read, ids);
    var marked := MarkShimmered(read, ids).value;
    forall j | 0 <= j < |towns|
      ensures marked[j] == towns[j]
    {
      var npc := npcs[j];
      assert towns[j] == npc && !npc.isPillar;
      assert read[j] == npc.(shimmered := false);
      assert (j in ids) == npc.shimmered;
    }
    assert marked == towns;
  }

  /** A town-first list is its town NPCs followed by its pillars. */
  lemma {:induction false} TownsThenPillars(npcs: seq<Npc>)
    requires TownsFirst(npcs)
    ensures npcs == Towns(npcs) + Pillars(npcs)
  {
    if npcs != [] {
      TownsFirstTail(npcs);
      TownsThenPillars(npcs[1..]);
      if npcs[0].isPillar {
        PillarHead(npcs);
      } else {
        TownHead(npcs);
      }
    }
  }

  lemma TownsFirstTail(npcs: seq<Npc>)
    requires npcs != [] && TownsFirst(npcs)
    ensures TownsFirst(npcs[1..])
    ensures npcs[0].isPillar ==> forall j :: 0 <= j < |npcs[1..]| ==> npcs[1..][j].isPillar
  {
    var tail := npcs[1..];
    forall i, j | 0 <= i < j < |tail| && tail[i].isPillar
      ensures tail[j].isPillar
    {
      assert npcs[i + 1].isPillar;
    }
    if npcs[0].isPillar {
      forall j | 0 <= j < |tail|
        ensures tail[j].isPillar
      {
        assert npcs[j + 1] == tail[j];
      }
    }
  }

  lemma PillarHead(npcs: seq<Npc>)
    requires npcs != [] && npcs[0].isPillar
    requires forall j :: 0 <= j < |npcs[1..]| ==> npcs[1..][j].isPillar
    requires npcs[1..] == Towns(npcs[1..]) + Pillars(npcs[1..])
    ensures npcs == Towns(npcs) + Pillars(npcs)
  {
    var tail := npcs[1..];
    NoTowns(tail);
    assert Towns(npcs) == [];
    assert Pillars(npcs) == [npcs[0]] + Pillars(tail);
    ConsSplit(npcs, [], Pillars(tail));
  }

  lemma TownHead(npcs: seq<Npc>)
    requires npcs != [] && !npcs[0].isPillar
    requires npcs[1..] == Towns(npcs[1..]) + Pillars(npcs[1..])
    ensures npcs == Towns(npcs) + Pillars(npcs)
  {
    var towns, pillars := Towns(npcs[1..]), Pillars(npcs[1..]);
    assert Towns(npcs) == [npcs[0]] + towns;
    assert Pillars(npcs) == pillars;
    ConsSplit(npcs, towns, pillars);
  }

  lemma ConsSplit<T>(s: seq<T>, a: seq<T>, b: seq<T>)
    requires s != [] && s[1..] == a + b
    ensures s == ([s[0]] + a) + b
  {
    assert s == [s[0]] + s[1..];
  }

  /** In a list of town NPCs followed by pillars, position `j` holds a town
      NPC exactly when it falls within the town NPCs. */
  lemma TownsPrefix(npcs: seq<Npc>)
    requires npcs == Towns(npcs) + Pillars(npcs)
    ensures forall j :: 0 <= j < |npcs| ==> (j < |Towns(npcs)| <==> !npcs[j].isPillar)
    ensures forall j :: 0 <= j < |Towns(npcs)| ==> Towns(npcs)[j] == npcs[j]
  {
    var towns, pillars := Towns(npcs), Pillars(npcs);
    SplitMembers(npcs);
    forall j | 0 <= j < |npcs|
      ensures j < |towns| <==> !npcs[j].isPillar
    {
      if j < |towns| {
        assert npcs[j] == towns[j] && towns[j] in towns;
      } else {
        assert npcs[j] == pillars[j - |towns|] && pillars[j - |towns|] in pillars;
      }
    }
  }

  lemma {:induction false} NoTowns(npcs: seq<Npc>)
    requires forall j :: 0 <= j < |npcs| ==> npcs[j].isPillar
    ensures Towns(npcs) == []
  {
    if npcs != [] {
      assert npcs[0].isPillar;
      NoTowns(npcs[1..]);
    }
  }

  /** Under `ShimmeredAtOwnIndex`, every shimmered id is the position of a
      town NPC, and the decoder marks position `j` exactly when the NPC
      there is shimmered. */
  lemma ShimmeredMarks(npcs: seq<Npc>)
    requires TownsFirst(npcs) && ShimmeredAtOwnIndex(npcs)
    ensures forall i :: 0 <= i < |ShimmeredIds(npcs)| ==> ShimmeredIds(npcs)[i] < |Towns(npcs)|
    ensures forall j :: 0 <= j < |npcs| ==> (j in ShimmeredIds(npcs) <==> npcs[j].shimmered)
  {
    var towns, ids := Towns(npcs), ShimmeredIds(npcs);
    ShimmeredIdsMembers(npcs);
    TownsThenPillars(npcs);
    TownsPrefix(npcs);
    forall j | 0 <= j < |npcs|
      ensures j in ids <==> npcs[j].shimmered
    {
      if j in ids {
        var k :| 0 <= k < |npcs| && npcs[k].shimmered && npcs[k].id == j;
      }
    }
    forall i | 0 <= i < |ids|
      ensures ids[i] < |towns|
    {
      assert ids[i] in ids;
      var k :| 0 <= k < |npcs| && npcs[k].shimmered && npcs[k].id == ids[i];
      assert !npcs[k].isPillar;
    }
  }

  /** The shimmered ids are exactly the ids of the shimmered NPCs. */
  lemma {:induction false} ShimmeredIdsMembers(npcs: seq<Npc>)
    ensures forall n :: n in ShimmeredIds(npcs) <==> exists k :: 0 <= k < |npcs| && npcs[k].shimmered && npcs[k].id == n
  {
    if npcs != [] {
      ShimmeredIdsMembers(npcs[1..]);
      forall n | exists k :: 0 <= k < |npcs| && npcs[k].shimmered && npcs[k].id == n
        ensures n in ShimmeredIds(npcs)
      {
        var k :| 0 <= k < |npcs| && npcs[k].shimmered && npcs[k].id == n;
        if k > 0 {
          assert npcs[1..][k - 1] == npcs[k];
        }
      }
    }
  }

  lemma {:induction false} ShimmeredIdsBound(npcs: seq<Npc>)
    ensures |ShimmeredIds(npcs)| <= |npcs|
  {
    if npcs != [] {
      ShimmeredIdsBound(npcs[1..]);
    }
  }

  /** One shimmered town NPC with id 3 makes the decoder abort: it reads
      the 3 as a position in a list of one. */
  lemma ShimmeredIdMisread(npc: Npc, rest: Bytes)
    requires npc.shimmered && !npc.isPillar && npc.id == 3 && |npc.name| < 256
    ensures ReadNpcs(NpcsBytes([npc]) + rest) == Err(ShimmeredIndex(3))
  {
    assert ShimmeredIds([npc]) == [3];
    assert Towns([npc]) == [npc];
    NpcsDecode([npc], rest);
  }
}
