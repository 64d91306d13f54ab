/** Bytes, little- and big-endian integers, and the result types shared by every codec. */
module Bytes {

  type byte = x: int | 0 <= x < 0x100 witness 0
  type u16 = x: int | 0 <= x < 0x1_0000 witness 0
  type u32 = x: int | 0 <= x < 0x1_0000_0000 witness 0

  datatype Option<+T> = None | Some(value: T)

  datatype DecodeError =
    | NotEnoughBytes
    | InvalidValue(field: string)

  datatype Result<+T> = Ok(value: T) | Err(error: DecodeError) {
    predicate IsFailure() {
      Err?
    }

    function PropagateFailure<U>(): Result<U>
      requires Err?
    {
      Err(error)
    }

    function Extract(): T
      requires Ok?
    {
      value
    }
  }

  /** A value parsed off the front of a byte string, and the bytes that follow it. */
  datatype Parsed<+T> = Parsed(value: T, rest: seq<byte>)

  /** A length cast to a 16-bit field. */
  function Cut16(n: nat): u16 {
    n % 0x1_0000
  }

  function Min(a: int, b: int): int {
    if a < b then a else b
  }

  lemma Distribute(a: nat, b: nat, c: nat)
    ensures (a + b) * c == a * c + b * c
  {
  }

  function Repeat(b: byte, n: nat): seq<byte> {
    seq(n, _ => b)
  }

  /** The 16-bit value of a low and a high byte. */
  function Word(low: byte, high: byte): u16 {
    low + 0x100 * (high as int)
  }

  function U16Le(v: u16): seq<byte> {
    [v % 0x100, v / 0x100]
  }

  function U16Be(v: u16): seq<byte> {
    [v / 0x100, v % 0x100]
  }

  function U32Le(v: u32): seq<byte> {
    U16Le(v % 0x1_0000) + U16Le(v / 0x1_0000)
  }

  function ReadU8(s: seq<byte>): Result<Parsed<byte>> {
    if |s| < 1 then Err(NotEnoughBytes) else Ok(Parsed(s[0], s[1..]))
  }

  function ReadU16Le(s: seq<byte>): Result<Parsed<u16>> {
    if |s| < 2 then Err(NotEnoughBytes) else Ok(Parsed(Word(s[0], s[1]), s[2..]))
  }

  function ReadU16Be(s: seq<byte>): Result<Parsed<u16>> {
    if |s| < 2 then Err(NotEnoughBytes) else Ok(Parsed(Word(s[1], s[0]), s[2..]))
  }

  function ReadU32Le(s: seq<byte>): Result<Parsed<u32>> {
    if |s| < 4 then Err(NotEnoughBytes)
    else Ok(Parsed(Word(s[0], s[1]) + 0x1_0000 * (Word(s[2], s[3]) as int), s[4..]))
  }

  function ReadSlice(s: seq<byte>, n: nat): Result<Parsed<seq<byte>>> {
    if |s| < n then Err(NotEnoughBytes) else Ok(Parsed(s[..n], s[n..]))
  }

  // Every fixed-width field reads back, leaving exactly the bytes that follow it.
  lemma ReadBackU16(v: u16, s: seq<byte>)
    ensures ReadU16Le(U16Le(v) + s) == Ok(Parsed(v, s))
    ensures ReadU16Be(U16Be(v) + s) == Ok(Parsed(v, s))
  {
    assert (U16Le(v) + s)[2..] == s && (U16Be(v) + s)[2..] == s;
  }

  lemma ReadBackU32(v: u32, s: seq<byte>)
    ensures ReadU32Le(U32Le(v) + s) == Ok(Parsed(v, s))
  {
    var lo, hi := v % 0x1_0000, v / 0x1_0000;
    assert Word(lo % 0x100, lo / 0x100) == lo && Word(hi % 0x100, hi / 0x100) == hi;
    assert (U32Le(v) + s)[4..] == s;
  }

  lemma ReadBackSlice(data: seq<byte>, s: seq<byte>)
    ensures ReadSlice(data + s, |data|) == Ok(Parsed(data, s))
  {
    assert (data + s)[..|data|] == data && (data + s)[|data|..] == s;
  }
}

/** The read cursor every decoder advances (crates/rdpcore-pdu/src/cursor.rs). */
module Cursor {
  import opened Bytes

  class ReadCursor {
    const buf: seq<byte>
    var pos: nat

    ghost predicate Valid()
      reads this
    {
      pos <= |buf|
    }

    /** What is left to read. */
    ghost function Rest(): seq<byte>
      requires Valid()
      reads this
    {
      buf[pos..]
    }

    constructor (input: seq<byte>)
      ensures Valid() && buf == input && pos == 0 && Rest() == input
    {
      buf := input;
      pos := 0;
    }

    method TakeU8() returns (r: Result<byte>)
      requires Valid()
      modifies this
      ensures Valid()
      ensures match ReadU8(old(Rest()))
              case Ok(p) => r == Ok(p.value) && Rest() == p.rest && pos == old(pos) + 1
              case Err(e) => r == Err(e) && pos == old(pos)
    {
      if |buf| - pos < 1 {
        return Err(NotEnoughBytes);
      }
      r := Ok(buf[pos]);
      pos := pos + 1;
    }
  }
}
