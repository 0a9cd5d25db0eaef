/** The byte-level vocabulary shared by the decoder (src/read.rs) and the
    encoder (src/write.rs): fatal errors, the result of a partial parse, and
    the little-endian primitives.

    Decoder-side functions are named `Read*`: they take the bytes still to be
    consumed and give back the value and the bytes after it, or the error
    that makes the source panic.  Encoder-side functions are named `*Bytes`:
    they give the bytes `Writer` appends for one value. */
module Wire {
  import opened Structs
  import Arith

  /** Every way the codec aborts.  The source panics (or `unwrap`s an `Err`)
      in each case; nothing is recovered. */
  datatype Error =
    | Truncated                        // `pop_front().unwrap()` on an exhausted buffer
    | NoCheckpoint(index: nat)         // `positions[i]` out of range
    | CheckpointMismatch(index: nat)   // `check_position(i)` returned `Err`
    | ReservedBit                      // `c & 1` or `b & 128` in a tile header
    | ImportanceIndex(blockId: nat)    // `importance[id]` out of range
    | ColumnOverrun                    // a column's runs do not add up to `height`
    | ChestSlots(declared: u16)        // the chest slot count is not 40
    | UnknownTileEntity(entityTag: byte)
    | UnknownCreativePower(powerTag: u16)
    | ShimmeredIndex(index: nat)       // `npcs[i]` out of range
    | TrailerMismatch                  // trailer flag, name or id disagrees with the header
    | TooFewTiles                      // encoder: `tiles[i]` out of range

  datatype Result<+T> = Ok(value: T) | Err(error: Error) {
    predicate IsFailure() { Err? }
    function PropagateFailure<U>(): Result<U> requires Err? { Err(error) }
    function Extract(): T requires Ok? { value }
  }

  /** A decoded value and the bytes that follow it. */
  datatype Parsed<+T> = Parsed(value: T, rest: Bytes)

  // ---------------------------------------------------------------------
  // Little-endian numbers
  // ---------------------------------------------------------------------

  /** 256 to the power `w`: one more than the largest `w`-byte number. */
  function Pow256(w: nat): (p: nat)
    ensures p >= 1
  {
    if w == 0 then 1 else 256 * Pow256(w - 1)
  }

  /** The ranges of the fixed-width integers. */
  lemma Pow256Widths()
    ensures Pow256(2) == 0x1_0000 && Pow256(4) == 0x1_0000_0000
    ensures Pow256(8) == 0x1_0000_0000_0000_0000
    ensures Pow256(16) == 0x1_0000_0000_0000_0000_0000_0000_0000_0000
  {
    assert Pow256(4) == 0x1_0000_0000;
    assert Pow256(8) == 0x1_0000_0000_0000_0000;
    assert Pow256(12) == 0x1_0000_0000_0000_0000_0000_0000;
  }

  /** The number whose little-endian bytes are `s`: `s[0] | s[1] << 8 | ...`. */
  function LittleEndian(s: Bytes): (n: nat)
    ensures n < Pow256(|s|)
  {
    if s == [] then 0 else s[0] as nat + 256 * LittleEndian(s[1..])
  }

  /** The `w` low bytes of `n`, least significant first (`to_le_bytes`,
      or the `as u8` / `>> 8` casts the encoder writes by hand). */
  function LeBytes(n: nat, w: nat): (s: Bytes)
    ensures |s| == w
  {
    if w == 0 then [] else [(n % 256) as byte] + LeBytes(n / 256, w - 1)
  }

  // ---------------------------------------------------------------------
  // Decoder side (Reader::u8 .. Reader::string, src/read.rs:35-61)
  // ---------------------------------------------------------------------

  /** `n` bytes off the front, as a run of `pop_front().unwrap()` does. */
  function Take(s: Bytes, n: nat): (r: Result<Parsed<Bytes>>)
    ensures r.Ok? <==> n <= |s|
    ensures r.Ok? ==> r.value.value + r.value.rest == s && |r.value.value| == n
  {
    if n <= |s| then Ok(Parsed(s[..n], s[n..])) else Err(Truncated)
  }

  /** A `w`-byte little-endian number. */
  function ReadUInt(s: Bytes, w: nat): (r: Result<Parsed<nat>>)
    ensures r.Ok? <==> w <= |s|
    ensures r.Ok? ==> r.value.value < Pow256(w) && r.value.rest == s[w..]
  {
    if w <= |s| then Ok(Parsed(LittleEndian(s[..w]), s[w..])) else Err(Truncated)
  }

  function ReadU8(s: Bytes): (r: Result<Parsed<byte>>)
    ensures r.Ok? <==> 1 <= |s|
    ensures r.Ok? ==> r.value.value == s[0] && r.value.rest == s[1..]
  {
    if 1 <= |s| then Ok(Parsed(s[0], s[1..])) else Err(Truncated)
  }

  function ReadU16(s: Bytes): (r: Result<Parsed<u16>>)
    ensures r.Ok? <==> 2 <= |s|
    ensures r.Ok? ==> r.value.rest == s[2..]
  {
    var n :- ReadUInt(s, 2);
    Pow256Widths();
    Ok(Parsed(n.value, n.rest))
  }

  function ReadU32(s: Bytes): (r: Result<Parsed<u32>>)
    ensures r.Ok? <==> 4 <= |s|
    ensures r.Ok? ==> r.value.rest == s[4..]
  {
    var n :- ReadUInt(s, 4);
    Pow256Widths();
    Ok(Parsed(n.value, n.rest))
  }

  function ReadU64(s: Bytes): (r: Result<Parsed<u64>>)
    ensures r.Ok? <==> 8 <= |s|
    ensures r.Ok? ==> r.value.rest == s[8..]
  {
    var n :- ReadUInt(s, 8);
    Pow256Widths();
    Ok(Parsed(n.value, n.rest))
  }

  function ReadU128(s: Bytes): (r: Result<Parsed<u128>>)
    ensures r.Ok? <==> 16 <= |s|
    ensures r.Ok? ==> r.value.rest == s[16..]
  {
    var n :- ReadUInt(s, 16);
    Pow256Widths();
    Ok(Parsed(n.value, n.rest))
  }

  /** `pop_front().unwrap() != 0` */
  function ReadBool(s: Bytes): (r: Result<Parsed<bool>>)
    ensures r.Ok? <==> 1 <= |s|
    ensures r.Ok? ==> (r.value.value <==> s[0] != 0) && r.value.rest == s[1..]
  {
    if 1 <= |s| then Ok(Parsed(s[0] != 0, s[1..])) else Err(Truncated)
  }

  /** A one-byte length, then that many bytes (UTF-8 validation is not modelled). */
  function ReadString(s: Bytes): (r: Result<Parsed<Bytes>>)
    ensures r.Ok? <==> 1 <= |s| && s[0] as nat < |s|
    ensures r.Ok? ==> [s[0]] + r.value.value + r.value.rest == s && |r.value.value| == s[0] as nat
  {
    var n :- ReadU8(s);
    Take(n.rest, n.value as nat)
  }

  /** A byte widened to 16 bits (`r.u8() as u16`). */
  function ReadU8AsU16(s: Bytes): Result<Parsed<u16>>
  {
    var b :- ReadU8(s);
    Ok(Parsed(b.value as int, b.rest))
  }

  // ---------------------------------------------------------------------
  // Encoder side (Writer::u8 .. Writer::string, src/write.rs:18-29)
  // ---------------------------------------------------------------------

  function U16Bytes(n: u16): Bytes { LeBytes(n, 2) }
  function U32Bytes(n: u32): Bytes { LeBytes(n, 4) }
  function U64Bytes(n: u64): Bytes { LeBytes(n, 8) }
  function U128Bytes(n: u128): Bytes { LeBytes(n, 16) }

  function BoolBytes(b: bool): Bytes { [if b then 1 else 0] }

  /** The length is written as `len as u8`: it wraps for strings of 256 bytes or more. */
  function StringBytes(s: Bytes): Bytes { [(|s| % 256) as byte] + s }

  // ---------------------------------------------------------------------
  // Round trips: the decoder reads back exactly what the encoder wrote,
  // consuming exactly the value's width, and every byte pattern is the
  // encoding of the value decoded from it.
  // ---------------------------------------------------------------------

  /** Regrouping concatenations, stated once for the solver. */
  lemma Assoc(a: Bytes, b: Bytes, c: Bytes)
    ensures (a + b) + c == a + (b + c)
  {
  }

  /** Writing `w` bytes of a number that fits and reading them back gives
      the number. */
  lemma {:induction false} LittleEndianOfLeBytes(n: nat, w: nat)
    requires n < Pow256(w)
    ensures LittleEndian(LeBytes(n, w)) == n
  {
    if w > 0 {
      var s := LeBytes(n, w);
      assert s[1..] == LeBytes(n / 256, w - 1);
      Arith.ByteValue(n % 256);
      Arith.DivModUnique(n, 256, n / 256, n % 256);
      Arith.DivBound(n, 256, Pow256(w - 1));
      LittleEndianOfLeBytes(n / 256, w - 1);
    }
  }

  /** Every byte string is the encoding of the number it decodes to. */
  lemma {:induction false} LeBytesOfLittleEndian(s: Bytes)
    ensures LeBytes(LittleEndian(s), |s|) == s
  {
    if s != [] {
      var n := LittleEndian(s);
      var m := LittleEndian(s[1..]);
      Arith.DivModUnique(n, 256, m, s[0] as nat);
      LeBytesOfLittleEndian(s[1..]);
    }
  }

  /** What an encoded number of width `w` followed by `rest` decodes to. */
  lemma UIntRoundTrip(n: nat, w: nat, rest: Bytes)
    requires n < Pow256(w)
    ensures ReadUInt(LeBytes(n, w) + rest, w) == Ok(Parsed(n, rest))
  {
    var s := LeBytes(n, w) + rest;
    assert s[..w] == LeBytes(n, w) && s[w..] == rest;
    LittleEndianOfLeBytes(n, w);
  }

  lemma U16RoundTrip(n: u16, rest: Bytes)
    ensures ReadU16(U16Bytes(n) + rest) == Ok(Parsed(n, rest))
  {
    Pow256Widths();
    UIntRoundTrip(n, 2, rest);
  }

  lemma U32RoundTrip(n: u32, rest: Bytes)
    ensures ReadU32(U32Bytes(n) + rest) == Ok(Parsed(n, rest))
  {
    Pow256Widths();
    UIntRoundTrip(n, 4, rest);
  }

  lemma U64RoundTrip(n: u64, rest: Bytes)
    ensures ReadU64(U64Bytes(n) + rest) == Ok(Parsed(n, rest))
  {
    Pow256Widths();
    UIntRoundTrip(n, 8, rest);
  }

  lemma U128RoundTrip(n: u128, rest: Bytes)
    ensures ReadU128(U128Bytes(n) + rest) == Ok(Parsed(n, rest))
  {
    Pow256Widths();
    UIntRoundTrip(n, 16, rest);
  }

  lemma U8RoundTrip(n: byte, rest: Bytes)
    ensures ReadU8([n] + rest) == Ok(Parsed(n, rest))
  {
    assert ([n] + rest)[1..] == rest;
  }

  lemma BoolRoundTrip(b: bool, rest: Bytes)
    ensures ReadBool(BoolBytes(b) + rest) == Ok(Parsed(b, rest))
  {
    assert (BoolBytes(b) + rest)[1..] == rest;
  }

  lemma StringRoundTrip(s: Bytes, rest: Bytes)
    requires |s| < 256
    ensures ReadString(StringBytes(s) + rest) == Ok(Parsed(s, rest))
  {
    var t := StringBytes(s) + rest;
    Arith.ByteValue(|s|);
    assert t[0] as nat == |s|;
    assert t[1..] == s + rest;
    assert (s + rest)[..|s|] == s && (s + rest)[|s|..] == rest;
  }

  /** A string of exactly 256 bytes is announced as empty: the decoder
      then reads its first byte as the next field. */
  lemma StringLengthWraps(s: Bytes, rest: Bytes)
    requires |s| == 256
    ensures ReadString(StringBytes(s) + rest) == Ok(Parsed([], s + rest))
  {
    assert (StringBytes(s) + rest)[1..] == s + rest;
  }

  /** Decoding a `w`-byte number consumes exactly `w` bytes, and the bytes
      consumed are the encoding of the value. */
  lemma ReadUIntConsumes(s: Bytes, w: nat)
    requires w <= |s|
    ensures ReadUInt(s, w).Ok?
    ensures LeBytes(ReadUInt(s, w).value.value, w) + ReadUInt(s, w).value.rest == s
  {
    LeBytesOfLittleEndian(s[..w]);
    assert s[..w] + s[w..] == s;
  }

  // ---------------------------------------------------------------------
  // Counted lists: `(0..n).map(|_| item(r)).collect()` on the decoder
  // side, `w.uN(xs.len() as uN); for x in xs { .. }` on the encoder side.
  // ---------------------------------------------------------------------

  /** `n` items, one after the other; the first failure aborts. */
  function ReadMany<T>(s: Bytes, n: nat, item: Bytes -> Result<Parsed<T>>): (r: Result<Parsed<seq<T>>>)
    ensures r.Ok? ==> |r.value.value| == n
    decreases n
  {
    if n == 0 then Ok(Parsed([], s))
    else
      var x :- item(s);
      var more :- ReadMany(x.rest, n - 1, item);
      Ok(Parsed([x.value] + more.value, more.rest))
  }

  /** Every item's bytes, in order. */
  function ManyBytes<T>(xs: seq<T>, enc: T -> Bytes): Bytes
  {
    if xs == [] then [] else enc(xs[0]) + ManyBytes(xs[1..], enc)
  }

  /** `f` applied to every element. */
  function MapSeq<T, U>(xs: seq<T>, f: T -> U): (ys: seq<U>)
    ensures |ys| == |xs| && forall i :: 0 <= i < |xs| ==> ys[i] == f(xs[i])
  {
    if xs == [] then [] else [f(xs[0])] + MapSeq(xs[1..], f)
  }

  /** A u16 count, then the items. */
  function ReadList16<T>(s: Bytes, item: Bytes -> Result<Parsed<T>>): Result<Parsed<seq<T>>>
  {
    var n :- ReadU16(s);
    ReadMany(n.rest, n.value, item)
  }

  /** A u32 count, then the items. */
  function ReadList32<T>(s: Bytes, item: Bytes -> Result<Parsed<T>>): Result<Parsed<seq<T>>>
  {
    var n :- ReadU32(s);
    ReadMany(n.rest, n.value, item)
  }

  /** `xs.len() as u16`, then the items: the count wraps past 65535. */
  function List16Bytes<T>(xs: seq<T>, enc: T -> Bytes): Bytes
  {
    U16Bytes(|xs| % 0x1_0000) + ManyBytes(xs, enc)
  }

  /** `xs.len() as u32`, then the items. */
  function List32Bytes<T>(xs: seq<T>, enc: T -> Bytes): Bytes
  {
    U32Bytes(|xs| % 0x1_0000_0000) + ManyBytes(xs, enc)
  }

  /** Items that each decode to `f` of themselves, whatever follows, decode
      together to `f` of the list.  With `f` the identity this is the
      round trip of a list. */
  lemma {:induction false} ManyDecode<T, U>(xs: seq<T>, enc: T -> Bytes, read: Bytes -> Result<Parsed<U>>,
                                            f: T -> U, rest: Bytes)
    requires forall x, r :: x in xs ==> read(enc(x) + r) == Ok(Parsed(f(x), r))
    ensures ReadMany(ManyBytes(xs, enc) + rest, |xs|, read) == Ok(Parsed(MapSeq(xs, f), rest))
  {
    if xs == [] {
      assert ManyBytes(xs, enc) + rest == rest;
    } else {
      var mid := ManyBytes(xs[1..], enc) + rest;
      Assoc(enc(xs[0]), ManyBytes(xs[1..], enc), rest);
      assert read(enc(xs[0]) + mid) == Ok(Parsed(f(xs[0]), mid));
      assert forall x :: x in xs[1..] ==> x in xs;
      ManyDecode(xs[1..], enc, read, f, rest);
    }
  }

  lemma List16Decode<T, U>(xs: seq<T>, enc: T -> Bytes, read: Bytes -> Result<Parsed<U>>, f: T -> U, rest: Bytes)
    requires |xs| < 0x1_0000
    requires forall x, r :: x in xs ==> read(enc(x) + r) == Ok(Parsed(f(x), r))
    ensures ReadList16(List16Bytes(xs, enc) + rest, read) == Ok(Parsed(MapSeq(xs, f), rest))
  {
    var body := ManyBytes(xs, enc) + rest;
    assert |xs| % 0x1_0000 == |xs|;
    assert List16Bytes(xs, enc) + rest == U16Bytes(|xs|) + body by {
      Assoc(U16Bytes(|xs|), ManyBytes(xs, enc), rest);
    }
    U16RoundTrip(|xs|, body);
    ManyDecode(xs, enc, read, f, rest);
  }

  lemma List32Decode<T, U>(xs: seq<T>, enc: T -> Bytes, read: Bytes -> Result<Parsed<U>>, f: T -> U, rest: Bytes)
    requires |xs| < 0x1_0000_0000
    requires forall x, r :: x in xs ==> read(enc(x) + r) == Ok(Parsed(f(x), r))
    ensures ReadList32(List32Bytes(xs, enc) + rest, read) == Ok(Parsed(MapSeq(xs, f), rest))
  {
    var body := ManyBytes(xs, enc) + rest;
    assert |xs| % 0x1_0000_0000 == |xs|;
    assert List32Bytes(xs, enc) + rest == U32Bytes(|xs|) + body by {
      Assoc(U32Bytes(|xs|), ManyBytes(xs, enc), rest);
    }
    U32RoundTrip(|xs|, body);
    ManyDecode(xs, enc, read, f, rest);
  }

  /** The bytes of a list are the bytes of any prefix followed by those of
      the matching suffix. */
  lemma {:induction false} ManyBytesSplit<T>(xs: seq<T>, enc: T -> Bytes, k: nat)
    requires k <= |xs|
    ensures ManyBytes(xs, enc) == ManyBytes(xs[..k], enc) + ManyBytes(xs[k..], enc)
  {
    if k == 0 {
      assert xs[..0] == [] && xs[0..] == xs;
    } else {
      ManyBytesSplit(xs[1..], enc, k - 1);
      assert xs[..k][0] == xs[0] && xs[..k][1..] == xs[1..][..k - 1];
      assert xs[1..][k - 1..] == xs[k..];
      Assoc(enc(xs[0]), ManyBytes(xs[1..][..k - 1], enc), ManyBytes(xs[k..], enc));
    }
  }

  // ---------------------------------------------------------------------
  // Sentinel lists: `while r.bool() { .. }` on the decoder side,
  // `for x in xs { w.bool(true); .. } w.bool(false)` on the encoder side.
  // ---------------------------------------------------------------------

  /** `item` never gives back more bytes than it was handed. */
  ghost predicate Consumes<T>(item: Bytes -> Result<Parsed<T>>)
  {
    forall s :: item(s).Ok? ==> |item(s).value.rest| <= |s|
  }

  /** Items, each announced by a nonzero byte, up to a zero byte. */
  function ReadUntilFalse<T>(s: Bytes, item: Bytes -> Result<Parsed<T>>): Result<Parsed<seq<T>>>
    requires Consumes(item)
    decreases |s|
  {
    var more :- ReadBool(s);
    if !more.value then Ok(Parsed([], more.rest))
    else
      var x :- item(more.rest);
      var others :- ReadUntilFalse(x.rest, item);
      Ok(Parsed([x.value] + others.value, others.rest))
  }

  /** `true` before every item's bytes, `false` after the last. */
  function SentinelBytes<T>(xs: seq<T>, enc: T -> Bytes): Bytes
  {
    if xs == [] then BoolBytes(false) else BoolBytes(true) + enc(xs[0]) + SentinelBytes(xs[1..], enc)
  }

  /** Items that each decode to `f` of themselves decode together, up to
      the closing `false`, to `f` of the list. */
  lemma {:induction false} SentinelDecode<T, U>(xs: seq<T>, enc: T -> Bytes, read: Bytes -> Result<Parsed<U>>,
                                                f: T -> U, rest: Bytes)
    requires Consumes(read)
    requires forall x, r :: x in xs ==> read(enc(x) + r) == Ok(Parsed(f(x), r))
    ensures ReadUntilFalse(SentinelBytes(xs, enc) + rest, read) == Ok(Parsed(MapSeq(xs, f), rest))
  {
    if xs == [] {
      BoolRoundTrip(false, rest);
      assert SentinelBytes(xs, enc) + rest == BoolBytes(false) + rest;
    } else {
      var after := SentinelBytes(xs[1..], enc) + rest;
      var body := enc(xs[0]) + after;
      assert SentinelBytes(xs, enc) + rest == BoolBytes(true) + body by {
        Assoc(BoolBytes(true) + enc(xs[0]), SentinelBytes(xs[1..], enc), rest);
        Assoc(BoolBytes(true), enc(xs[0]), after);
      }
      BoolRoundTrip(true, body);
      assert read(body) == Ok(Parsed(f(xs[0]), after));
      assert forall x :: x in xs[1..] ==> x in xs;
      SentinelDecode(xs[1..], enc, read, f, rest);
      assert ReadUntilFalse(BoolBytes(true) + body, read) == Ok(Parsed([f(xs[0])] + MapSeq(xs[1..], f), rest));
    }
  }

  // ---------------------------------------------------------------------
  // Truncated numbers
  // ---------------------------------------------------------------------

  /** The first `k` bytes of a `w`-byte encoding are the `k`-byte encoding. */
  lemma {:induction false} LeBytesPrefix(n: nat, w: nat, k: nat)
    requires k <= w
    ensures LeBytes(n, w)[..k] == LeBytes(n, k)
  {
    if k > 0 {
      LeBytesPrefix(n / 256, w - 1, k - 1);
      assert LeBytes(n, w)[..k] == [(n % 256) as byte] + LeBytes(n / 256, w - 1)[..k - 1];
    }
  }

  /** `w` bytes of any number read back as the number modulo 256^w: the
      `as u8` casts drop the high bytes. */
  lemma {:induction false} LittleEndianMod(n: nat, w: nat)
    ensures LittleEndian(LeBytes(n, w)) == n % Pow256(w)
  {
    if w > 0 {
      LittleEndianMod(n / 256, w - 1);
      Arith.ByteValue(n % 256);
      Arith.ModProduct(n, 256, Pow256(w - 1));
    }
  }
}
