/** The importance table: one flag per block id, packed LSB-first into bytes
    and preceded by its length as a u16 (decoded at src/read.rs:75-87,
    encoded at src/write.rs:49-66).  A block whose id is flagged carries its
    sub-tile anchor in the tile plane. */
module Importance {
  import opened Structs
  import opened Wire

  /** Bit `k` of a byte, `(n >> k) & 1 == 1`. */
  function BitAt(b: byte, k: nat): bool
    requires k < 8
  {
    (b >> (k as bv3)) & 1 == 1
  }

  /** The flags `bits` packed as the encoder's accumulator does it:
      flag `i` adds `1 << i`. */
  function PackByte(bits: seq<bool>): (n: byte)
    requires |bits| <= 8
  {
    if bits == [] then 0
    else
      var m := |bits| - 1;
      PackByte(bits[..m]) + (if bits[m] then (1 as byte) << (m as bv3) else 0)
  }

  /** Bytes of eight flags each; a last partial byte only when the length
      is not a multiple of eight. */
  function Pack(flags: seq<bool>): (bytes: Bytes)
    ensures |bytes| == (|flags| + 7) / 8
  {
    if |flags| == 0 then []
    else if |flags| <= 8 then [PackByte(flags)]
    else [PackByte(flags[..8])] + Pack(flags[8..])
  }

  /** The first `len` flags held by `bytes`, LSB first. */
  function Unpack(bytes: Bytes, len: nat): (flags: seq<bool>)
    requires len <= 8 * |bytes|
  {
    seq(len, j requires 0 <= j < len => BitAt(bytes[j / 8], j % 8))
  }

  /** Decoder: `len` flags from `(len + 7) / 8` bytes. */
  function ReadFlags(s: Bytes, len: nat): Result<Parsed<seq<bool>>>
  {
    var bytes :- Take(s, (len + 7) / 8);
    Ok(Parsed(Unpack(bytes.value, len), bytes.rest))
  }

  /** Decoder: the u16 length, then the flags. */
  function ReadTable(s: Bytes): Result<Parsed<seq<bool>>>
  {
    var len :- ReadU16(s);
    ReadFlags(len.rest, len.value as nat)
  }

  /** Encoder: `importance.len() as u16`, then the packed flags. */
  function TableBytes(flags: seq<bool>): Bytes
  {
    U16Bytes(|flags| % 0x1_0000) + Pack(flags)
  }

  /** Flag `k` of a packed byte is the `k`-th flag, and bits past the last
      flag are clear. */
  lemma {:induction false} PackByteBits(bits: seq<bool>, k: nat)
    requires |bits| <= 8 && k < 8
    ensures BitAt(PackByte(bits), k) == (k < |bits| && bits[k])
  {
    if bits != [] {
      var m := |bits| - 1;
      PackByteBits(bits[..m], k);
      PackByteHigh(bits[..m]);
      AddBit(PackByte(bits[..m]), m, k, bits[m]);
    }
  }

  /** A packed byte has no bit at or above its flag count. */
  lemma {:induction false} PackByteHigh(bits: seq<bool>)
    requires |bits| <= 8
    ensures |bits| < 8 ==> PackByte(bits) < (1 as byte) << (|bits| as bv4)
  {
    if bits != [] {
      var m := |bits| - 1;
      PackByteHigh(bits[..m]);
    }
  }

  lemma AddBit(p: byte, m: nat, k: nat, x: bool)
    requires m < 8 && k < 8
    requires p < (1 as byte) << (m as bv4)
    ensures BitAt(p + (if x then (1 as byte) << (m as bv3) else 0), k)
         == (if k == m then x else k < m && BitAt(p, k))
  {
  }

  /** Byte `q` of the packing holds flags `8q` to `8q + 7`. */
  lemma {:induction false} PackAt(flags: seq<bool>, j: nat)
    requires j < |flags|
    ensures j / 8 < |Pack(flags)|
    ensures BitAt(Pack(flags)[j / 8], j % 8) == flags[j]
  {
    if |flags| <= 8 {
      assert j / 8 == 0 && j % 8 == j;
      PackByteBits(flags, j);
    } else if j < 8 {
      assert j / 8 == 0 && j % 8 == j;
      PackByteBits(flags[..8], j);
    } else {
      var tail := flags[8..];
      assert Pack(flags) == [PackByte(flags[..8])] + Pack(tail);
      assert (j - 8) / 8 == j / 8 - 1 && (j - 8) % 8 == j % 8;
      PackAt(tail, j - 8);
    }
  }

  lemma UnpackPack(flags: seq<bool>)
    ensures Unpack(Pack(flags), |flags|) == flags
  {
    forall j | 0 <= j < |flags|
      ensures Unpack(Pack(flags), |flags|)[j] == flags[j]
    {
      PackAt(flags, j);
    }
  }

  /** The decoder reads back the table the encoder wrote, provided the
      length fits the u16 it is written as. */
  lemma TableRoundTrip(flags: seq<bool>, rest: Bytes)
    requires |flags| < 0x1_0000
    ensures ReadTable(TableBytes(flags) + rest) == Ok(Parsed(flags, rest))
  {
    var len := |flags| % 0x1_0000;
    var body := Pack(flags) + rest;
    assert len == |flags|;
    assert TableBytes(flags) + rest == U16Bytes(len) + body;
    assert ReadU16(TableBytes(flags) + rest) == Ok(Parsed(len, body)) by {
      U16RoundTrip(len, body);
    }
    assert ReadFlags(body, |flags|) == Ok(Parsed(flags, rest)) by {
      assert body[..|Pack(flags)|] == Pack(flags) && body[|Pack(flags)|..] == rest;
      UnpackPack(flags);
    }
  }
}
