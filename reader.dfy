/** The decoder's cursor (`Reader`, src/read.rs:6-62): the bytes not yet
    consumed, the length of the buffer it was made from, and the offsets
    table once it has been read.

    Every reading method is proved against the decoder function of the
    format modules that describes the same bytes: `Took(parse, r, rest)`
    says that the method produced the value `parse` produces and left the
    bytes `parse` leaves, or failed with the same error.  The source
    panics where these methods return `Err`; what is left to read after a
    failure is unspecified. */
module Reading {
  import opened Structs
  import opened Wire
  import WorldFormat

  /** The method's outcome `r` and the bytes `rest` left after it agree
      with the decoder function's result `p`. */
  predicate Took<T(==)>(p: Result<Parsed<T>>, r: Result<T>, rest: Bytes)
  {
    match p
    case Ok(x) => r == Ok(x.value) && rest == x.rest
    case Err(e) => r == Err(e)
  }

  /** The items `xs` read so far, followed by what reading on gives. */
  function Then<T>(xs: seq<T>, r: Result<Parsed<seq<T>>>): (q: Result<Parsed<seq<T>>>)
    ensures q.Ok? <==> r.Ok?
    ensures r.Ok? ==> q.value.value == xs + r.value.value && q.value.rest == r.value.rest
    ensures r.Err? ==> q.error == r.error
  {
    match r
    case Ok(p) => Ok(Parsed(xs + p.value, p.rest))
    case Err(e) => Err(e)
  }

  /** Nothing more to read: the items read so far are the list. */
  lemma ThenNone<T>(xs: seq<T>, s: Bytes)
    ensures Then(xs, Ok(Parsed([], s))) == Ok(Parsed(xs, s))
  {
    assert xs + [] == xs;
  }

  /** One more item of a counted list: a failing item fails the list, and
      a read item moves from the list still to be read to the items read. */
  lemma ManyStep<T>(xs: seq<T>, s: Bytes, n: nat, item: Bytes -> Result<Parsed<T>>)
    requires n > 0
    ensures item(s).Err? ==> Then(xs, ReadMany(s, n, item)) == Err(item(s).error)
    ensures item(s).Ok? ==> Then(xs, ReadMany(s, n, item))
                            == Then(xs + [item(s).value.value], ReadMany(item(s).value.rest, n - 1, item))
  {
    if item(s).Ok? {
      var x := item(s).value;
      var more := ReadMany(x.rest, n - 1, item);
      if more.Ok? {
        assert xs + ([x.value] + more.value.value) == (xs + [x.value]) + more.value.value;
      }
    }
  }

  /** One more item of a counted list, once the item's reader has run
      (`res` and `rest` are what it produced and left). */
  lemma ManyTook<T>(xs: seq<T>, s: Bytes, n: nat, item: Bytes -> Result<Parsed<T>>, res: Result<T>, rest: Bytes)
    requires n > 0 && Took(item(s), res, rest)
    ensures res.Err? ==> Then(xs, ReadMany(s, n, item)) == Err(res.error)
    ensures res.Ok? ==> Then(xs, ReadMany(s, n, item)) == Then(xs + [res.value], ReadMany(rest, n - 1, item))
  {
    ManyStep(xs, s, n, item);
  }

  /** One more turn of a `while r.bool()` loop: the flag is read, and on
      `true` one item. */
  lemma UntilStep<T>(xs: seq<T>, s: Bytes, item: Bytes -> Result<Parsed<T>>)
    requires Consumes(item)
    ensures ReadBool(s).Err? ==> Then(xs, ReadUntilFalse(s, item)) == Err(Truncated)
    ensures ReadBool(s).Ok? && !ReadBool(s).value.value
            ==> Then(xs, ReadUntilFalse(s, item)) == Ok(Parsed(xs, s[1..]))
    ensures ReadBool(s).Ok? && ReadBool(s).value.value && item(s[1..]).Err?
            ==> Then(xs, ReadUntilFalse(s, item)) == Err(item(s[1..]).error)
    ensures ReadBool(s).Ok? && ReadBool(s).value.value && item(s[1..]).Ok?
            ==> Then(xs, ReadUntilFalse(s, item))
                == Then(xs + [item(s[1..]).value.value], ReadUntilFalse(item(s[1..]).value.rest, item))
  {
    if ReadBool(s).Ok? {
      if !ReadBool(s).value.value {
        assert xs + [] == xs;
      } else if item(s[1..]).Ok? {
        var x := item(s[1..]).value;
        var more := ReadUntilFalse(x.rest, item);
        if more.Ok? {
          assert xs + ([x.value] + more.value.value) == (xs + [x.value]) + more.value.value;
        }
      }
    }
  }

  /** Adding byte `i` to the first `i` bytes adds it at weight `256^i`. */
  lemma {:induction false} LittleEndianSnoc(s: Bytes, i: nat)
    requires i < |s|
    ensures LittleEndian(s[..i + 1]) == LittleEndian(s[..i]) + s[i] as nat * Pow256(i)
  {
    if i == 0 {
      assert s[..1][1..] == [];
    } else {
      var t := s[1..];
      LittleEndianSnoc(t, i - 1);
      assert s[..i + 1][1..] == t[..i];
      assert s[..i][1..] == t[..i - 1];
      Shift(s[0] as int, LittleEndian(t[..i - 1]), s[i] as int, Pow256(i - 1));
    }
  }

  /** The arithmetic step of `LittleEndianSnoc`. */
  lemma Shift(c: int, a: int, b: int, p: int)
    ensures c + 256 * (a + b * p) == (c + 256 * a) + b * (256 * p)
  {
  }

  /** Nothing read yet. */
  lemma ThenEmpty<T>(r: Result<Parsed<seq<T>>>)
    ensures Then([], r) == r
  {
    if r.Ok? {
      assert [] + r.value.value == r.value.value;
    }
  }

  class Reader {
    /** `deque`: the bytes not yet consumed. */
    var rest: Bytes
    /** `original_length`: the length of the whole buffer. */
    const originalLength: nat
    /** `positions`: the offsets table of the file. */
    var positions: seq<u32>

    /** `Reader::new` */
    constructor(buffer: Bytes)
      ensures rest == buffer && originalLength == |buffer| && positions == []
    {
      rest := buffer;
      originalLength := |buffer|;
      positions := [];
    }

    /** `position`: the number of bytes consumed. */
    function Position(): (p: int)
      reads this
      ensures p == originalLength - |rest|
    {
      originalLength - |rest|
    }

    /** `check_position(i)` (src/read.rs:28-33): the `i`-th recorded offset
        must exist and equal the number of bytes consumed. */
    method CheckPosition(i: nat) returns (r: Result<()>)
      ensures r == WorldFormat.CheckPosition(positions, i, Position())
    {
      if i >= |positions| {
        return Err(NoCheckpoint(i));
      }
      if positions[i] != originalLength - |rest| {
        return Err(CheckpointMismatch(i));
      }
      return Ok(());
    }

    /** `pop_front().unwrap()` */
    method U8() returns (r: Result<byte>)
      modifies this`rest
      ensures Took(ReadU8(old(rest)), r, rest)
    {
      if |rest| == 0 {
        return Err(Truncated);
      }
      var b := rest[0];
      rest := rest[1..];
      return Ok(b);
    }

    /** The sum of `w` popped bytes, byte `i` shifted left by `8 * i`
        (src/read.rs:41-49). */
    method UInt(w: nat) returns (r: Result<nat>)
      modifies this`rest
      ensures Took(ReadUInt(old(rest), w), r, rest)
    {
      if |rest| < w {
        return Err(Truncated);
      }
      ghost var s := rest;
      var n := 0;
      var i := 0;
      while i < w
        invariant i <= w && rest == s[i..] && n == LittleEndian(s[..i])
      {
        LittleEndianSnoc(s, i);
        n := n + rest[0] as nat * Pow256(i);
        rest := rest[1..];
        i := i + 1;
      }
      return Ok(n);
    }

    /** `u16`: the low byte, then the high byte. */
    method U16() returns (r: Result<u16>)
      modifies this`rest
      ensures Took(ReadU16(old(rest)), r, rest)
    {
      var n :- UInt(2);
      Pow256Widths();
      return Ok(n);
    }

    /** `u32`, and `f32` through its bits. */
    method U32() returns (r: Result<u32>)
      modifies this`rest
      ensures Took(ReadU32(old(rest)), r, rest)
    {
      var n :- UInt(4);
      Pow256Widths();
      return Ok(n);
    }

    /** `u64`, and `f64` through its bits. */
    method U64() returns (r: Result<u64>)
      modifies this`rest
      ensures Took(ReadU64(old(rest)), r, rest)
    {
      var n :- UInt(8);
      Pow256Widths();
      return Ok(n);
    }

    method U128() returns (r: Result<u128>)
      modifies this`rest
      ensures Took(ReadU128(old(rest)), r, rest)
    {
      var n :- UInt(16);
      Pow256Widths();
      return Ok(n);
    }

    /** `pop_front().unwrap() != 0` */
    method Bool() returns (r: Result<bool>)
      modifies this`rest
      ensures Took(ReadBool(old(rest)), r, rest)
    {
      var b :- U8();
      return Ok(b != 0);
    }

    /** `n` popped bytes. */
    method Take(n: nat) returns (r: Result<Bytes>)
      modifies this`rest
      ensures Took(Wire.Take(old(rest), n), r, rest)
    {
      if |rest| < n {
        return Err(Truncated);
      }
      ghost var s := rest;
      var bytes := [];
      while |bytes| < n
        invariant |bytes| <= n && bytes == s[..|bytes|] && rest == s[|bytes|..]
      {
        bytes := bytes + [rest[0]];
        rest := rest[1..];
      }
      return Ok(bytes);
    }

    /** `string`: a length byte, then that many bytes. */
    method String() returns (r: Result<Bytes>)
      modifies this`rest
      ensures Took(ReadString(old(rest)), r, rest)
    {
      var len :- U8();
      r := Take(len as nat);
    }

    /** `(0..n).map(|_| r.u32()).collect()` */
    method U32s(n: nat) returns (r: Result<seq<u32>>)
      modifies this`rest
      ensures Took(ReadMany(old(rest), n, ReadU32), r, rest)
    {
      ghost var goal := ReadMany(rest, n, ReadU32);
      var xs := [];
      var left := n;
      ThenEmpty(goal);
      while left > 0
        invariant goal == Then(xs, ReadMany(rest, left, ReadU32))
        decreases left
      {
        ManyStep(xs, rest, left, ReadU32);
        var x :- U32();
        xs := xs + [x];
        left := left - 1;
      }
      ThenNone(xs, rest);
      return Ok(xs);
    }

    /** `(0..n).map(|_| r.string()).collect()` */
    method Strings(n: nat) returns (r: Result<seq<Bytes>>)
      modifies this`rest
      ensures Took(ReadMany(old(rest), n, ReadString), r, rest)
    {
      ghost var goal := ReadMany(rest, n, ReadString);
      var xs := [];
      var left := n;
      ThenEmpty(goal);
      while left > 0
        invariant goal == Then(xs, ReadMany(rest, left, ReadString))
        decreases left
      {
        ManyStep(xs, rest, left, ReadString);
        var x :- String();
        xs := xs + [x];
        left := left - 1;
      }
      ThenNone(xs, rest);
      return Ok(xs);
    }
  }
}
