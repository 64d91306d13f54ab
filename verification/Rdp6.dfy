/**
  RDP 6.0 Planar bitmap compression (section 3.1.9 of MS-RDPEGDI), after
  crates/rdpcore-pdu/src/rdp6.rs: three colour planes, each filtered by a zigzag-packed
  vertical delta and run-length encoded one scanline at a time.
 */
module Rdp6 {
  import opened Bytes
  import opened Cursor

  const FORMAT_HEADER: byte := 0x30
  const MAX_STACK_PIXELS: nat := 4096

  // ------------------------------------------------------------------
  // Scanline run-length coding
  // ------------------------------------------------------------------

  /** Length of the maximal run of equal bytes that starts `line`. */
  function RunLength(line: seq<byte>): (n: nat)
    requires line != []
    ensures 1 <= n <= |line|
    ensures forall i :: 0 <= i < n ==> line[i] == line[0]
    ensures n < |line| ==> line[n] != line[0]
  {
    if |line| > 1 && line[1] == line[0] then 1 + RunLength(line[1..]) else 1
  }

  /** A pure-literal segment: control byte `len << 4`, then the bytes. */
  function Literals(bytes: seq<byte>): seq<byte>
    requires |bytes| <= 15
  {
    if bytes == [] then [] else [|bytes| * 16] + bytes
  }

  /** Continuation segments for `n` more copies of the previous byte `b`. */
  function Continuation(b: byte, n: nat): seq<byte> {
    if n == 0 then []
    else if n >= 3 then
      var chunk := Min(n, 15);
      [chunk] + Continuation(b, n - chunk)
    else Literals(Repeat(b, n))
  }

  function Run(b: byte, count: nat): seq<byte>
    requires count >= 4
  {
    var first := Min(count - 1, 15);
    [16 + first, b] + Continuation(b, count - 1 - first)
  }

  /** What the encoder still emits when `pending` literals are buffered and `line` is unread. */
  function EncodeTail(pending: seq<byte>, line: seq<byte>): seq<byte>
    requires |pending| < 15
    decreases |line|
  {
    if line == [] then Literals(pending)
    else
      var n := RunLength(line);
      if n >= 4 then Literals(pending) + Run(line[0], n) + EncodeTail([], line[n..])
      else if |pending| == 14 then Literals(pending + [line[0]]) + EncodeTail([], line[1..])
      else EncodeTail(pending + [line[0]], line[1..])
  }

  function EncodeScanline(line: seq<byte>): seq<byte> {
    EncodeTail([], line)
  }

  /** How a control byte splits into copied literals and repeats of the last byte. */
  function LiteralCount(control: byte): nat {
    if control % 16 == 1 || control % 16 == 2 then 0 else control / 16
  }

  function RepeatCount(control: byte): nat {
    match control % 16
    case 1 => 16 + control / 16
    case 2 => 32 + control / 16
    case n => n
  }

  function Prepend(bytes: seq<byte>, r: Result<Parsed<seq<byte>>>): Result<Parsed<seq<byte>>> {
    match r
    case Ok(p) => Ok(Parsed(bytes + p.value, p.rest))
    case Err(e) => Err(e)
  }

  const ZERO_CONTROL := InvalidValue("rdp6.rle.control")
  const OVERRUN := InvalidValue("rdp6.rle.scanline")

  /** Reads segments off `s` until `n` bytes of scanline are filled; `last` is the byte repeats copy. */
  function DecodeFrom(s: seq<byte>, last: byte, n: nat): Result<Parsed<seq<byte>>>
    decreases n
  {
    if n == 0 then Ok(Parsed([], s))
    else if s == [] then Err(NotEnoughBytes)
    else if s[0] == 0 then Err(ZERO_CONTROL)
    else
      var lits := LiteralCount(s[0]);
      var reps := RepeatCount(s[0]);
      if |s| - 1 < Min(lits, n) then Err(NotEnoughBytes)
      else if lits + reps > n then Err(OVERRUN)
      else
        var last' := if lits == 0 then last else s[lits];
        Prepend(s[1..1 + lits] + Repeat(last', reps), DecodeFrom(s[1 + lits..], last', n - lits - reps))
  }

  function DecodeScanline(s: seq<byte>, n: nat): Result<Parsed<seq<byte>>> {
    DecodeFrom(s, 0, n)
  }

  lemma PrependPrepend(a: seq<byte>, b: seq<byte>, r: Result<Parsed<seq<byte>>>)
    ensures Prepend(a, Prepend(b, r)) == Prepend(a + b, r)
  {
    if r.Ok? {
      assert a + (b + r.value.value) == a + b + r.value.value;
    }
  }

  /** One step of DecodeFrom. */
  lemma DecodeFromStep(s: seq<byte>, last: byte, n: nat)
    requires n > 0 && s != [] && s[0] != 0
    ensures var lits, reps := LiteralCount(s[0]), RepeatCount(s[0]);
            DecodeFrom(s, last, n)
            == if |s| - 1 < Min(lits, n) then Err(NotEnoughBytes)
               else if lits + reps > n then Err(OVERRUN)
               else
                 var last' := if lits == 0 then last else s[lits];
                 Prepend(s[1..1 + lits] + Repeat(last', reps), DecodeFrom(s[1 + lits..], last', n - lits - reps))
  {
  }

  /** A segment that fits: its literals, then the repeats. */
  lemma SegmentFits(s: seq<byte>, last: byte, n: nat, seg: seq<byte>, last': byte)
    requires n > 0 && s != [] && s[0] != 0
    requires LiteralCount(s[0]) + RepeatCount(s[0]) <= n && |s| > LiteralCount(s[0])
    requires last' == if LiteralCount(s[0]) == 0 then last else s[LiteralCount(s[0])]
    requires seg == s[1..1 + LiteralCount(s[0])] + Repeat(last', RepeatCount(s[0]))
    ensures 0 < |seg| == LiteralCount(s[0]) + RepeatCount(s[0])
    ensures DecodeFrom(s, last, n) == Prepend(seg, DecodeFrom(s[1 + LiteralCount(s[0])..], last', n - |seg|))
  {
    DecodeFromStep(s, last, n);
  }

  lemma DecodeLiterals(bytes: seq<byte>, rest: seq<byte>, last: byte, n: nat)
    requires 1 <= |bytes| <= 15 && |bytes| <= n
    ensures DecodeFrom(Literals(bytes) + rest, last, n)
         == Prepend(bytes, DecodeFrom(rest, bytes[|bytes| - 1], n - |bytes|))
  {
    hide DecodeFrom, Prepend;
    var s := [|bytes| * 16] + bytes + rest;
    assert LiteralCount(s[0]) == |bytes| && RepeatCount(s[0]) == 0;
    assert s[1..1 + |bytes|] + Repeat(bytes[|bytes| - 1], 0) == bytes;
    assert s[1 + |bytes|..] == rest;
    SegmentFits(s, last, n, bytes, bytes[|bytes| - 1]);
  }

  /** One continuation segment: `chunk` more copies of the previous byte. */
  lemma DecodeChunk(b: byte, chunk: nat, rest: seq<byte>, n: nat)
    requires 3 <= chunk <= 15 && chunk <= n
    ensures DecodeFrom([chunk] + rest, b, n) == Prepend(Repeat(b, chunk), DecodeFrom(rest, b, n - chunk))
  {
    hide DecodeFrom, Prepend;
    var s := [chunk] + rest;
    assert LiteralCount(s[0]) == 0 && RepeatCount(s[0]) == chunk;
    assert s[1..1] + Repeat(b, chunk) == Repeat(b, chunk);
    assert s[1..] == rest;
    SegmentFits(s, b, n, Repeat(b, chunk), b);
  }

  lemma {:induction false} DecodeContinuation(b: byte, count: nat, rest: seq<byte>, n: nat)
    requires count <= n
    ensures DecodeFrom(Continuation(b, count) + rest, b, n) == Prepend(Repeat(b, count), DecodeFrom(rest, b, n - count))
    decreases count
  {
    hide DecodeFrom;
    if count == 0 {
      assert [] + rest == rest;
      PrependNothing(Repeat(b, 0), DecodeFrom(rest, b, n));
    } else if count >= 3 {
      var chunk := Min(count, 15);
      var more := count - chunk;
      var tail := Continuation(b, more) + rest;
      ContinuationSplits(b, count, rest);
      DecodeChunk(b, chunk, tail, n);
      DecodeContinuation(b, more, rest, n - chunk);
      PrependPrepend(Repeat(b, chunk), Repeat(b, more), DecodeFrom(rest, b, n - count));
    } else {
      DecodeLiterals(Repeat(b, count), rest, b, n);
    }
  }

  lemma ContinuationSplits(b: byte, count: nat, rest: seq<byte>)
    requires count >= 3
    ensures var chunk := Min(count, 15);
            && Continuation(b, count) + rest == [chunk] + (Continuation(b, count - chunk) + rest)
            && Repeat(b, chunk) + Repeat(b, count - chunk) == Repeat(b, count)
  {
  }

  lemma PrependNothing(none: seq<byte>, r: Result<Parsed<seq<byte>>>)
    requires none == []
    ensures Prepend(none, r) == r
  {
    assert r.Ok? ==> none + r.value.value == r.value.value;
  }

  /** The first segment of a run: the byte itself, then `first` copies of it. */
  lemma DecodeRunStart(b: byte, first: nat, rest: seq<byte>, last: byte, n: nat)
    requires 3 <= first <= 15 && first < n
    ensures DecodeFrom([16 + first, b] + rest, last, n)
         == Prepend(Repeat(b, 1 + first), DecodeFrom(rest, b, n - 1 - first))
  {
    hide DecodeFrom, Prepend;
    var s := [16 + first, b] + rest;
    assert LiteralCount(s[0]) == 1 && RepeatCount(s[0]) == first;
    assert s[1..2] + Repeat(b, first) == Repeat(b, 1 + first);
    assert s[2..] == rest;
    SegmentFits(s, last, n, Repeat(b, 1 + first), b);
  }

  lemma DecodeRun(b: byte, count: nat, rest: seq<byte>, last: byte, n: nat)
    requires 4 <= count <= n
    ensures DecodeFrom(Run(b, count) + rest, last, n) == Prepend(Repeat(b, count), DecodeFrom(rest, b, n - count))
  {
    hide DecodeFrom;
    var first := Min(count - 1, 15);
    var more := count - 1 - first;
    var tail := Continuation(b, more) + rest;
    assert Run(b, count) + rest == [16 + first, b] + tail;
    DecodeRunStart(b, first, tail, last, n);
    DecodeContinuation(b, more, rest, n - 1 - first);
    PrependPrepend(Repeat(b, 1 + first), Repeat(b, more), DecodeFrom(rest, b, n - count));
    assert Repeat(b, 1 + first) + Repeat(b, more) == Repeat(b, count);
  }

  /** Flushing the literal buffer decodes to the buffered bytes, whatever follows. */
  lemma DecodeFlushed(pending: seq<byte>, tail: seq<byte>, line: seq<byte>, rest: seq<byte>, last: byte)
    requires |pending| <= 15
    requires forall l: byte :: DecodeFrom(tail + rest, l, |line|) == Ok(Parsed(line, rest))
    ensures DecodeFrom(Literals(pending) + tail + rest, last, |pending| + |line|) == Ok(Parsed(pending + line, rest))
  {
    hide DecodeFrom;
    assert Literals(pending) + tail + rest == Literals(pending) + (tail + rest);
    if pending == [] {
      assert [] + (tail + rest) == tail + rest && [] + line == line;
    } else {
      DecodeLiterals(pending, tail + rest, last, |pending| + |line|);
    }
  }

  /** A run of four or more, then the code of the rest of the line. */
  lemma DecodeRunThenTail(line: seq<byte>, tail: seq<byte>, rest: seq<byte>, last: byte)
    requires line != [] && RunLength(line) >= 4
    requires DecodeFrom(tail + rest, line[0], |line| - RunLength(line)) == Ok(Parsed(line[RunLength(line)..], rest))
    ensures DecodeFrom(Run(line[0], RunLength(line)) + tail + rest, last, |line|) == Ok(Parsed(line, rest))
  {
    hide DecodeFrom, Run;
    var n := RunLength(line);
    assert Run(line[0], n) + tail + rest == Run(line[0], n) + (tail + rest);
    DecodeRun(line[0], n, tail + rest, last, |line|);
    assert Repeat(line[0], n) + line[n..] == line;
  }

  lemma {:induction false} DecodeEncodeTail(pending: seq<byte>, line: seq<byte>, rest: seq<byte>, last: byte)
    requires |pending| < 15
    ensures DecodeFrom(EncodeTail(pending, line) + rest, last, |pending| + |line|) == Ok(Parsed(pending + line, rest))
    decreases |line|
  {
    hide DecodeFrom, EncodeTail, RunLength;
    if line == [] {
      DecodeLastLiterals(pending, rest, last);
      assert pending + [] == pending;
    } else if RunLength(line) >= 4 {
      DecodeRunByte(pending, line, rest, last);
    } else {
      DecodeLiteralByte(pending, line, rest, last);
    }
  }

  lemma DecodeLastLiterals(pending: seq<byte>, rest: seq<byte>, last: byte)
    requires |pending| < 15
    ensures DecodeFrom(EncodeTail(pending, []) + rest, last, |pending|) == Ok(Parsed(pending, rest))
  {
    hide DecodeFrom, Literals, Run;
    assert EncodeTail(pending, []) + rest == Literals(pending) + [] + rest;
    assert [] + rest == rest && pending + [] == pending;
    forall l: byte ensures DecodeFrom([] + rest, l, 0) == Ok(Parsed([], rest)) {
      DecodeFromEnds(rest, l, 0);
    }
    DecodeFlushed(pending, [], [], rest, last);
  }

  lemma {:induction false} DecodeRunByte(pending: seq<byte>, line: seq<byte>, rest: seq<byte>, last: byte)
    requires |pending| < 15 && line != [] && RunLength(line) >= 4
    ensures DecodeFrom(EncodeTail(pending, line) + rest, last, |pending| + |line|) == Ok(Parsed(pending + line, rest))
    decreases |line|, 0
  {
    hide DecodeFrom, Literals, Run, RunLength, EncodeTail;
    var n := RunLength(line);
    var after := EncodeTail([], line[n..]);
    EncodeTailRun(pending, line);
    assert Literals(pending) + Run(line[0], n) + after == Literals(pending) + (Run(line[0], n) + after);
    forall l: byte ensures DecodeFrom(Run(line[0], n) + after + rest, l, |line|) == Ok(Parsed(line, rest)) {
      DecodeEncodeTail([], line[n..], rest, line[0]);
      assert [] + line[n..] == line[n..];
      DecodeRunThenTail(line, after, rest, l);
    }
    DecodeFlushed(pending, Run(line[0], n) + after, line, rest, last);
  }

  lemma {:induction false} DecodeLiteralByte(pending: seq<byte>, line: seq<byte>, rest: seq<byte>, last: byte)
    requires |pending| < 15 && line != [] && RunLength(line) < 4
    ensures DecodeFrom(EncodeTail(pending, line) + rest, last, |pending| + |line|) == Ok(Parsed(pending + line, rest))
    decreases |line|, 0
  {
    hide DecodeFrom, Literals, RunLength, EncodeTail;
    EncodeTailLiteral(pending, line);
    var pending' := pending + [line[0]];
    assert pending' + line[1..] == pending + line;
    if |pending| == 14 {
      var after := EncodeTail([], line[1..]);
      forall l: byte ensures DecodeFrom(after + rest, l, |line[1..]|) == Ok(Parsed(line[1..], rest)) {
        DecodeEncodeTail([], line[1..], rest, l);
        assert [] + line[1..] == line[1..];
      }
      DecodeFlushed(pending', after, line[1..], rest, last);
    } else {
      DecodeEncodeTail(pending', line[1..], rest, last);
    }
  }

  /** Scanlines round-trip and are self-delimiting: decoding stops exactly where the line's code ends. */
  lemma ScanlineRoundTrip(line: seq<byte>, rest: seq<byte>)
    ensures DecodeScanline(EncodeScanline(line) + rest, |line|) == Ok(Parsed(line, rest))
  {
    hide DecodeFrom, EncodeTail;
    DecodeEncodeTail([], line, rest, 0);
    assert [] + line == line;
  }

  // ------------------------------------------------------------------
  // Size and shape of the code
  // ------------------------------------------------------------------

  /** One control byte per fifteen literals: n + ceil(n / 15). */
  function CodeBound(n: nat): nat {
    n + (n + 14) / 15
  }

  lemma {:induction false} ContinuationSize(b: byte, n: nat)
    ensures |Continuation(b, n)| <= n + 1
  {
    if n >= 3 {
      ContinuationSize(b, n - Min(n, 15));
    }
  }

  lemma {:induction false} EncodeTailSize(pending: seq<byte>, line: seq<byte>)
    requires |pending| < 15
    ensures |EncodeTail(pending, line)| <= CodeBound(|pending| + |line|)
    decreases |line|
  {
    if line != [] {
      var n := RunLength(line);
      if n >= 4 {
        EncodeTailSize([], line[n..]);
        ContinuationSize(line[0], n - 1 - Min(n - 1, 15));
      } else if |pending| == 14 {
        EncodeTailSize([], line[1..]);
      } else {
        EncodeTailSize(pending + [line[0]], line[1..]);
      }
    }
  }

  ghost predicate NoRepeats(line: seq<byte>) {
    forall i :: 0 < i < |line| ==> line[i - 1] != line[i]
  }

  /** The bound is attained by every line in which no byte repeats its neighbour. */
  lemma {:induction false} EncodeTailSizeIsTight(pending: seq<byte>, line: seq<byte>)
    requires |pending| < 15 && NoRepeats(line)
    ensures |EncodeTail(pending, line)| == CodeBound(|pending| + |line|)
    decreases |line|
  {
    if line != [] {
      assert RunLength(line) == 1;
      if |pending| == 14 {
        EncodeTailSizeIsTight([], line[1..]);
      } else {
        EncodeTailSizeIsTight(pending + [line[0]], line[1..]);
      }
    }
  }

  /** `s` is exactly a chain of segments filling `n` bytes, none zero and none of the extended forms 1 and 2. */
  predicate PlainSegments(s: seq<byte>, n: nat)
    decreases n
  {
    if n == 0 then s == []
    else
      && s != [] && s[0] != 0 && s[0] % 16 != 1 && s[0] % 16 != 2
      && |s| > s[0] / 16
      && s[0] / 16 + s[0] % 16 <= n
      && PlainSegments(s[1 + s[0] / 16..], n - s[0] / 16 - s[0] % 16)
  }

  lemma PlainSegment(control: byte, bytes: seq<byte>, tail: seq<byte>, n: nat)
    requires control != 0 && control % 16 != 1 && control % 16 != 2 && control / 16 == |bytes|
    requires PlainSegments(tail, n)
    ensures PlainSegments([control] + bytes + tail, |bytes| + control % 16 + n)
  {
    var s := [control] + bytes + tail;
    assert s[1 + |bytes|..] == tail;
  }

  lemma PlainLiterals(bytes: seq<byte>, tail: seq<byte>, n: nat)
    requires |bytes| <= 15 && PlainSegments(tail, n)
    ensures PlainSegments(Literals(bytes) + tail, |bytes| + n)
  {
    hide PlainSegments;
    if bytes == [] {
      assert [] + tail == tail;
    } else {
      PlainSegment(|bytes| * 16, bytes, tail, n);
    }
  }

  lemma {:induction false} PlainContinuation(b: byte, count: nat, tail: seq<byte>, n: nat)
    requires PlainSegments(tail, n)
    ensures PlainSegments(Continuation(b, count) + tail, count + n)
    decreases count
  {
    hide PlainSegments, Continuation, Literals, Repeat;
    if count < 3 {
      ContinuationShort(b, count, tail);
      PlainLiterals(Repeat(b, count), tail, n);
    } else {
      var chunk := Min(count, 15);
      var more := Continuation(b, count - chunk) + tail;
      ContinuationSplits(b, count, tail);
      PlainContinuation(b, count - chunk, tail, n);
      PlainSegment(chunk, [], more, count - chunk + n);
      assert [chunk] + [] + more == [chunk] + more;
    }
  }

  lemma ContinuationShort(b: byte, count: nat, tail: seq<byte>)
    requires count < 3
    ensures Continuation(b, count) + tail == Literals(Repeat(b, count)) + tail && |Repeat(b, count)| == count
  {
  }

  lemma PlainRun(b: byte, count: nat, tail: seq<byte>, n: nat)
    requires count >= 4 && PlainSegments(tail, n)
    ensures PlainSegments(Run(b, count) + tail, count + n)
  {
    hide PlainSegments, Continuation;
    var first := Min(count - 1, 15);
    var rest := Continuation(b, count - 1 - first);
    PlainContinuation(b, count - 1 - first, tail, n);
    assert Run(b, count) + tail == [16 + first] + [b] + (rest + tail);
    hide Run;
    PlainSegment(16 + first, [b], rest + tail, count - 1 - first + n);
  }

  lemma {:induction false} PlainEncodeTail(pending: seq<byte>, line: seq<byte>)
    requires |pending| < 15
    ensures PlainSegments(EncodeTail(pending, line), |pending| + |line|)
    decreases |line|
  {
    hide PlainSegments, Literals, Run;
    if line == [] {
      PlainNothing();
      PlainLiterals(pending, [], 0);
      assert Literals(pending) + [] == Literals(pending);
    } else {
      var n := RunLength(line);
      if n >= 4 {
        var after := EncodeTail([], line[n..]);
        PlainEncodeTail([], line[n..]);
        PlainRun(line[0], n, after, |line| - n);
        PlainLiterals(pending, Run(line[0], n) + after, |line|);
        assert Literals(pending) + (Run(line[0], n) + after) == EncodeTail(pending, line);
      } else if |pending| == 14 {
        PlainEncodeTail([], line[1..]);
        PlainLiterals(pending + [line[0]], EncodeTail([], line[1..]), |line| - 1);
      } else {
        PlainEncodeTail(pending + [line[0]], line[1..]);
      }
    }
  }

  lemma PlainNothing()
    ensures PlainSegments([], 0)
  {
  }

  /** A scanline's code is bounded, attains the bound, and uses no reserved or zero control byte. */
  lemma ScanlineShape(line: seq<byte>)
    ensures |EncodeScanline(line)| <= CodeBound(|line|)
    ensures NoRepeats(line) ==> |EncodeScanline(line)| == CodeBound(|line|)
    ensures PlainSegments(EncodeScanline(line), |line|)
  {
    EncodeTailSize([], line);
    if NoRepeats(line) {
      EncodeTailSizeIsTight([], line);
    }
    PlainEncodeTail([], line);
  }

  // ------------------------------------------------------------------
  // Vertical delta filter
  // ------------------------------------------------------------------

  function Zigzag(raw: byte): byte {
    if raw < 128 then 2 * raw else 511 - 2 * raw
  }

  function Unzigzag(code: byte): byte {
    if code % 2 == 0 then code / 2 else 255 - code / 2
  }

  /** The shifts of zigzag_encode on a sign-extended 16-bit word, kept to the low byte. */
  function ZigzagBits(raw: bv8): bv8 {
    var signed: bv16 := if raw < 0x80 then raw as bv16 else 0xFF00 | raw as bv16;
    (((signed << 1) ^ (if signed < 0x8000 then 0 else 0xFFFF)) & 0xFF) as bv8
  }

  /** The shifts of zigzag_decode. */
  function UnzigzagBits(code: bv8): bv8 {
    (code >> 1) ^ (if code & 1 == 0 then 0 else 0xFF)
  }

  /** In machine bits the two are inverse bijections. */
  lemma ZigzagBitsRoundTrip(x: bv8)
    ensures UnzigzagBits(ZigzagBits(x)) == x && ZigzagBits(UnzigzagBits(x)) == x
    ensures ZigzagBits(x) == if x < 0x80 then 2 * x else 0xFF - 2 * x
    ensures UnzigzagBits(x) == if x & 1 == 0 then x / 2 else 0xFF - x / 2
  {
  }

  lemma ZigzagRoundTrip(x: byte)
    ensures Unzigzag(Zigzag(x)) == x && Zigzag(Unzigzag(x)) == x
  {
  }

  /** Sample `i` of the filtered plane: row 0 as it is, later rows as the difference to the row above. */
  function DeltaAt(plane: seq<byte>, w: nat, i: nat): byte
    requires i < |plane|
  {
    if i < w then plane[i] else Zigzag((plane[i] as int - plane[i - w]) % 256)
  }

  function Delta(plane: seq<byte>, w: nat): (d: seq<byte>)
    ensures |d| == |plane|
    ensures forall i :: 0 <= i < |d| ==> d[i] == DeltaAt(plane, w, i)
  {
    seq(|plane|, i requires 0 <= i < |plane| => DeltaAt(plane, w, i))
  }

  /** Sample `|above|` of the plane, from its filtered value and every earlier sample. */
  function Restore(above: seq<byte>, w: nat, d: byte): byte
    requires w > 0
  {
    if |above| < w then d else (above[|above| - w] as int + Unzigzag(d)) % 256
  }

  function Undelta(delta: seq<byte>, w: nat): (p: seq<byte>)
    requires w > 0
    ensures |p| == |delta|
  {
    if delta == [] then []
    else
      var p := Undelta(delta[..|delta| - 1], w);
      p + [Restore(p, w, delta[|delta| - 1])]
  }

  /** Adding a difference back, modulo 256. */
  lemma WrapInverts(above: byte, x: byte)
    ensures (above as int + (x as int - above) % 256) % 256 == x
    ensures ((above as int + x) % 256 - above) % 256 == x
  {
  }

  lemma RestoreInverts(plane: seq<byte>, w: nat, x: byte)
    requires w > 0
    ensures Restore(plane, w, DeltaAt(plane + [x], w, |plane|)) == x
    ensures DeltaAt(plane + [Restore(plane, w, x)], w, |plane|) == x
  {
    hide Zigzag, Unzigzag;
    if |plane| >= w {
      var above := plane[|plane| - w];
      WrapInverts(above, x);
      ZigzagRoundTrip((x as int - above) % 256);
      WrapInverts(above, Unzigzag(x));
      ZigzagRoundTrip(x);
    }
  }

  /** Unfiltering undoes filtering. */
  lemma {:induction false} UndeltaDelta(plane: seq<byte>, w: nat)
    requires w > 0
    ensures Undelta(Delta(plane, w), w) == plane
  {
    if plane != [] {
      var i := |plane| - 1;
      UndeltaDelta(plane[..i], w);
      assert Delta(plane, w)[..i] == Delta(plane[..i], w);
      assert plane[..i] + [plane[i]] == plane;
      RestoreInverts(plane[..i], w, plane[i]);
    }
  }

  /** Filtering undoes unfiltering. */
  lemma {:induction false} DeltaUndelta(delta: seq<byte>, w: nat)
    requires w > 0
    ensures Delta(Undelta(delta, w), w) == delta
  {
    if delta != [] {
      var i := |delta| - 1;
      var p := Undelta(delta[..i], w);
      DeltaUndelta(delta[..i], w);
      RestoreInverts(p, w, delta[i]);
      DeltaGrows(p, w, Restore(p, w, delta[i]));
      hide Delta, DeltaAt, Restore;
      assert delta[..i] + [delta[i]] == delta;
    }
  }

  lemma DeltaGrows(plane: seq<byte>, w: nat, x: byte)
    requires w > 0
    ensures Delta(plane + [x], w) == Delta(plane, w) + [DeltaAt(plane + [x], w, |plane|)]
  {
    hide Zigzag;
  }

  // ------------------------------------------------------------------
  // Planes and tiles
  // ------------------------------------------------------------------

  lemma FirstRow(w: nat, h: nat)
    requires h > 0
    ensures w * h == w + w * (h - 1) && h * w == w + (h - 1) * w && w <= w * h
  {
  }

  /** The code of `h` rows of `w` filtered samples. */
  function EncodeRows(delta: seq<byte>, w: nat, h: nat): seq<byte>
    decreases h
  {
    if h == 0 || |delta| < w then [] else EncodeScanline(delta[..w]) + EncodeRows(delta[w..], w, h - 1)
  }

  function DecodeRows(s: seq<byte>, w: nat, h: nat): (r: Result<Parsed<seq<byte>>>)
    ensures r.Ok? ==> |r.value.value| == w * h
    decreases h
  {
    if h == 0 then Ok(Parsed([], s))
    else
      match DecodeScanline(s, w)
      case Err(e) => Err(e)
      case Ok(p) =>
        DecodedLength(s, 0, w);
        Prepend(p.value, DecodeRows(p.rest, w, h - 1))
  }

  lemma ControlCounts(control: byte)
    requires control != 0
    ensures LiteralCount(control) + RepeatCount(control) > 0
  {
  }

  lemma PrependLength(a: seq<byte>, r: Result<Parsed<seq<byte>>>)
    ensures Prepend(a, r).Ok? ==> r.Ok? && |Prepend(a, r).value.value| == |a| + |r.value.value|
  {
  }

  lemma {:induction false} DecodedLength(s: seq<byte>, last: byte, n: nat)
    ensures DecodeFrom(s, last, n).Ok? ==> |DecodeFrom(s, last, n).value.value| == n
    decreases n
  {
    if n == 0 || s == [] || s[0] == 0 {
      assert DecodeFrom(s, last, n).Ok? ==> n == 0;
    } else {
      hide LiteralCount, RepeatCount, DecodeFrom, Prepend;
      var lits, reps := LiteralCount(s[0]), RepeatCount(s[0]);
      ControlCounts(s[0]);
      DecodeFromStep(s, last, n);
      if lits + reps <= n && |s| - 1 >= lits {
        var last' := if lits == 0 then last else s[lits];
        DecodedLength(s[1 + lits..], last', n - lits - reps);
        PrependLength(s[1..1 + lits] + Repeat(last', reps), DecodeFrom(s[1 + lits..], last', n - lits - reps));
      }
    }
  }

  lemma {:induction false} RowsRoundTrip(delta: seq<byte>, w: nat, h: nat, rest: seq<byte>)
    requires |delta| == w * h
    ensures DecodeRows(EncodeRows(delta, w, h) + rest, w, h) == Ok(Parsed(delta, rest))
    decreases h
  {
    hide EncodeScanline, DecodeScanline;
    if h == 0 {
      assert delta == [] && EncodeRows(delta, w, h) + rest == rest;
    } else {
      FirstRow(w, h);
      var line, rows := EncodeScanline(delta[..w]), EncodeRows(delta[w..], w, h - 1);
      var tail := rows + rest;
      assert EncodeRows(delta, w, h) + rest == line + rows + rest == line + tail;
      ScanlineRoundTrip(delta[..w], tail);
      RowsRoundTrip(delta[w..], w, h - 1, rest);
      assert delta[..w] + delta[w..] == delta;
    }
  }

  lemma {:induction false} RowsSize(delta: seq<byte>, w: nat, h: nat)
    requires |delta| == w * h
    ensures |EncodeRows(delta, w, h)| <= h * CodeBound(w)
    decreases h
  {
    hide EncodeScanline, CodeBound;
    if h > 0 {
      FirstRow(w, h);
      ScanlineShape(delta[..w]);
      RowsSize(delta[w..], w, h - 1);
      FirstRow(CodeBound(w), h);
    }
  }

  function EncodePlane(plane: seq<byte>, w: nat, h: nat): seq<byte>
    requires |plane| == w * h
  {
    EncodeRows(Delta(plane, w), w, h)
  }

  function DecodePlane(s: seq<byte>, w: nat, h: nat): (r: Result<Parsed<seq<byte>>>)
    ensures r.Ok? ==> |r.value.value| == w * h
  {
    if w == 0 || h == 0 then Ok(Parsed([], s))
    else
      match DecodeRows(s, w, h)
      case Err(e) => Err(e)
      case Ok(p) => Ok(Parsed(Undelta(p.value, w), p.rest))
  }

  lemma PlaneRoundTrip(plane: seq<byte>, w: nat, h: nat, rest: seq<byte>)
    requires |plane| == w * h && w > 0 && h > 0
    ensures DecodePlane(EncodePlane(plane, w, h) + rest, w, h) == Ok(Parsed(plane, rest))
  {
    RowsRoundTrip(Delta(plane, w), w, h, rest);
    UndeltaDelta(plane, w);
  }

  /** Component `c` of the first `n` pixels; pixels the buffer does not hold in full read as 0. */
  function Component(bgrx: seq<byte>, n: nat, c: nat): seq<byte>
    requires c < 4
  {
    seq(n, i requires 0 <= i < n => if 4 * i + 4 <= |bgrx| then bgrx[4 * i + c] else 0)
  }

  function Encode(bgrx: seq<byte>, w: nat, h: nat): seq<byte> {
    var n := w * h;
    if n == 0 then [FORMAT_HEADER]
    else
      [FORMAT_HEADER] + EncodePlane(Component(bgrx, n, 2), w, h) +
      EncodePlane(Component(bgrx, n, 1), w, h) + EncodePlane(Component(bgrx, n, 0), w, h)
  }

  function Interleave(r: seq<byte>, g: seq<byte>, b: seq<byte>): seq<byte>
    requires |r| == |g| == |b|
  {
    seq(4 * |r|, i requires 0 <= i < 4 * |r| =>
      if i % 4 == 0 then b[i / 4] else if i % 4 == 1 then g[i / 4] else if i % 4 == 2 then r[i / 4] else 0)
  }

  function Decode(data: seq<byte>, w: nat, h: nat): Result<seq<byte>> {
    if data == [] then Err(NotEnoughBytes)
    else if data[0] != FORMAT_HEADER then Err(InvalidValue("rdp6.format_header"))
    else
      match DecodePlane(data[1..], w, h)
      case Err(e) => Err(e)
      case Ok(r) =>
        match DecodePlane(r.rest, w, h)
        case Err(e) => Err(e)
        case Ok(g) =>
          match DecodePlane(g.rest, w, h)
          case Err(e) => Err(e)
          case Ok(b) => Ok(Interleave(r.value, g.value, b.value))
  }

  /** `bgrx` cut or zero-extended to `n` pixels, with every X byte cleared. */
  function WithoutX(bgrx: seq<byte>, n: nat): seq<byte> {
    seq(4 * n, i requires 0 <= i < 4 * n => if i % 4 == 3 || i / 4 * 4 + 4 > |bgrx| then 0 else bgrx[i])
  }

  lemma ComponentsInterleave(bgrx: seq<byte>, n: nat)
    ensures Interleave(Component(bgrx, n, 2), Component(bgrx, n, 1), Component(bgrx, n, 0)) == WithoutX(bgrx, n)
  {
    var all := Interleave(Component(bgrx, n, 2), Component(bgrx, n, 1), Component(bgrx, n, 0));
    forall i | 0 <= i < 4 * n ensures all[i] == WithoutX(bgrx, n)[i] {
      assert 4 * (i / 4) + i % 4 == i;
    }
  }

  lemma EmptyTileRoundTrip(bgrx: seq<byte>, w: nat, h: nat)
    requires w == 0 || h == 0
    ensures Decode([FORMAT_HEADER], w, h) == Ok(WithoutX(bgrx, 0))
  {
    assert Interleave([], [], []) == WithoutX(bgrx, 0);
  }

  /** Decoding an encoded tile gives the tile back with every X byte zero, at every size. */
  lemma TileRoundTrip(bgrx: seq<byte>, w: nat, h: nat)
    ensures Decode(Encode(bgrx, w, h), w, h) == Ok(WithoutX(bgrx, w * h))
  {
    hide EncodePlane, DecodePlane, Interleave, WithoutX;
    var n := w * h;
    var r, g, b := Component(bgrx, n, 2), Component(bgrx, n, 1), Component(bgrx, n, 0);
    ComponentsInterleave(bgrx, n);
    if n > 0 {
      assert w > 0 && h > 0;
      var er, eg, eb := EncodePlane(r, w, h), EncodePlane(g, w, h), EncodePlane(b, w, h);
      assert Encode(bgrx, w, h)[1..] == er + (eg + eb);
      PlaneRoundTrip(r, w, h, eg + eb);
      PlaneRoundTrip(g, w, h, eb);
      assert eb == eb + [];
      PlaneRoundTrip(b, w, h, []);
    } else {
      assert w == 0 || h == 0;
      EmptyTileRoundTrip(bgrx, w, h);
    }
  }

  /** The stream for a w x h tile is at most 1 + 3 h (w + ceil(w / 15)) bytes. */
  lemma TileSize(bgrx: seq<byte>, w: nat, h: nat)
    ensures |Encode(bgrx, w, h)| <= 1 + 3 * (h * CodeBound(w))
  {
    var n := w * h;
    if n > 0 {
      RowsSize(Delta(Component(bgrx, n, 2), w), w, h);
      RowsSize(Delta(Component(bgrx, n, 1), w), w, h);
      RowsSize(Delta(Component(bgrx, n, 0), w), w, h);
    }
  }

  // ------------------------------------------------------------------
  // The coders as the source runs them
  // ------------------------------------------------------------------

  class LiteralBuf {
    const buf: array<byte>
    var len: nat

    ghost predicate Valid()
      reads this, buf
    {
      buf.Length == 15 && len < 15
    }

    ghost function Pending(): seq<byte>
      requires buf.Length == 15 && len <= 15
      reads this, buf
    {
      buf[..len]
    }

    constructor ()
      ensures Valid() && fresh(buf) && Pending() == []
    {
      buf := new byte[15](_ => 0);
      len := 0;
    }

    method Push(b: byte, out: seq<byte>) returns (out': seq<byte>)
      requires Valid()
      modifies this, buf
      ensures Valid()
      ensures if old(len) == 14
              then out' == out + Literals(old(Pending()) + [b]) && Pending() == []
              else out' == out && Pending() == old(Pending()) + [b]
    {
      buf[len] := b;
      len := len + 1;
      out' := out;
      if len == 15 {
        out' := Flush(out');
      }
    }

    method Flush(out: seq<byte>) returns (out': seq<byte>)
      requires buf.Length == 15 && len <= 15
      modifies this
      ensures Valid() && Pending() == []
      ensures out' == out + Literals(old(Pending()))
    {
      out' := out;
      if len > 0 {
        out' := out' + [len * 16] + buf[..len];
        len := 0;
      }
    }
  }

  lemma ContinuationStep(out: seq<byte>, b: byte, n: nat)
    ensures n >= 3 ==> out + [Min(n, 15)] + Continuation(b, n - Min(n, 15)) == out + Continuation(b, n)
    ensures 0 < n < 3 ==> out + [n * 16] + Repeat(b, n) == out + Continuation(b, n)
    ensures n == 0 ==> out + Continuation(b, n) == out
  {
  }

  method EmitRun(b: byte, count: nat, out: seq<byte>) returns (out': seq<byte>)
    requires count >= 4
    ensures out' == out + Run(b, count)
  {
    hide Continuation;
    var remaining: nat := count - 1;
    var first := Min(remaining, 15);
    out' := out + [16 + first, b];
    remaining := remaining - first;
    while remaining > 0
      invariant out' + Continuation(b, remaining) == out + Run(b, count)
    {
      ContinuationStep(out', b, remaining);
      if remaining >= 3 {
        var chunk := Min(remaining, 15);
        out' := out' + [chunk];
        remaining := remaining - chunk;
      } else {
        out' := out' + [remaining * 16] + Repeat(b, remaining);
        remaining := 0;
        ContinuationStep(out', b, 0);
      }
    }
    ContinuationStep(out', b, 0);
  }

  /** Emitting the leading byte of a short run as a literal leaves the rest of the code unchanged. */
  lemma EncodeTailLiteral(pending: seq<byte>, line: seq<byte>)
    requires |pending| < 15 && line != [] && RunLength(line) < 4
    ensures EncodeTail(pending, line)
         == if |pending| == 14 then Literals(pending + [line[0]]) + EncodeTail([], line[1..])
            else EncodeTail(pending + [line[0]], line[1..])
  {
  }

  lemma EncodeTailRun(pending: seq<byte>, line: seq<byte>)
    requires |pending| < 15 && line != [] && RunLength(line) >= 4
    ensures EncodeTail(pending, line)
         == Literals(pending) + Run(line[0], RunLength(line)) + EncodeTail([], line[RunLength(line)..])
  {
  }

  /** A byte count over equal bytes, ended by a different byte or the end, is the run length. */
  lemma RunLengthIs(line: seq<byte>, n: nat)
    requires 1 <= n <= |line|
    requires forall i :: 0 <= i < n ==> line[i] == line[0]
    requires n < |line| ==> line[n] != line[0]
    ensures RunLength(line) == n
  {
  }

  /** One pushed literal: what is emitted and still to come does not change. */
  lemma PushStep(out: seq<byte>, pending: seq<byte>, out': seq<byte>, pending': seq<byte>, line: seq<byte>)
    requires |pending| < 15 && line != [] && RunLength(line) < 4
    requires if |pending| == 14 then out' == out + Literals(pending + [line[0]]) && pending' == []
             else out' == out && pending' == pending + [line[0]]
    ensures out' + EncodeTail(pending', line[1..]) == out + EncodeTail(pending, line)
    ensures 1 < RunLength(line) ==> RunLength(line[1..]) == RunLength(line) - 1 && line[1] == line[0]
  {
    EncodeTailLiteral(pending, line);
    hide EncodeTail, Literals;
    if |pending| == 14 {
      var lits, tail := Literals(pending + [line[0]]), EncodeTail([], line[1..]);
      assert out + lits + tail == out + (lits + tail);
    }
  }

  /** Pushes a run of fewer than four bytes as literals. */
  method PushRun(pending: LiteralBuf, ghost line: seq<byte>, b: byte, count: nat, out: seq<byte>)
    returns (out': seq<byte>)
    requires pending.Valid() && line != [] && line[0] == b && RunLength(line) == count < 4
    modifies pending, pending.buf
    ensures pending.Valid()
    ensures out' + EncodeTail(pending.Pending(), line[count..]) == out + EncodeTail(old(pending.Pending()), line)
  {
    hide EncodeTail, Literals, RunLength;
    out' := out;
    ghost var rest := line;
    assert line[0..] == line;
    for k := 0 to count
      invariant pending.Valid() && rest == line[k..]
      invariant k < count ==> rest != [] && rest[0] == b && RunLength(rest) == count - k
      invariant out' + EncodeTail(pending.Pending(), rest) == out + EncodeTail(old(pending.Pending()), line)
    {
      ghost var before, had := out', pending.Pending();
      out' := pending.Push(b, out');
      PushStep(before, had, out', pending.Pending(), rest);
      rest := rest[1..];
    }
  }

  method EncodeScanlineRle(line: seq<byte>, out: seq<byte>) returns (out': seq<byte>)
    ensures out' == out + EncodeScanline(line)
  {
    hide EncodeTail, Literals, Run, RunLength;
    var pending := new LiteralBuf();
    out' := out;
    var i := 0;
    assert line[0..] == line;
    while i < |line|
      invariant i <= |line| && pending.Valid() && fresh(pending) && fresh(pending.buf)
      invariant out' + EncodeTail(pending.Pending(), line[i..]) == out + EncodeTail([], line)
    {
      var b := line[i];
      var count := 1;
      while i + count < |line| && line[i + count] == b
        invariant i + count <= |line|
        invariant forall k :: 0 <= k < count ==> line[i..][k] == b
      {
        count := count + 1;
      }
      RunLengthIs(line[i..], count);
      if count < 4 {
        assert line[i..][count..] == line[i + count..];
        out' := PushRun(pending, line[i..], b, count, out');
      } else {
        EncodeTailRun(pending.Pending(), line[i..]);
        assert line[i..][count..] == line[i + count..];
        ghost var before, lits, tail := out', Literals(pending.Pending()), EncodeTail([], line[i + count..]);
        out' := pending.Flush(out');
        out' := EmitRun(b, count, out');
        assert before + lits + Run(b, count) + tail == before + (lits + Run(b, count) + tail);
      }
      i := i + count;
    }
    assert line[i..] == [];
    EncodeTailEnd(pending.Pending());
    out' := pending.Flush(out');
  }

  lemma EncodeTailEnd(pending: seq<byte>)
    requires |pending| < 15
    ensures EncodeTail(pending, []) == Literals(pending)
  {
  }

  lemma RowFits(row: nat, w: nat, h: nat)
    requires row < h
    ensures row * w + w == (row + 1) * w <= w * h
  {
    Distribute(row, 1, w);
    Distribute(row + 1, h - 1 - row, w);
  }

  /** Fills the front of `delta` with the filtered plane, row by row. */
  method FilterPlane(delta: array<byte>, plane: seq<byte>, w: nat, h: nat)
    requires |plane| == w * h <= delta.Length && h > 0
    modifies delta
    ensures delta[..w * h] == Delta(plane, w)
  {
    RowFits(0, w, h);
    for i := 0 to w
      invariant forall k :: 0 <= k < i ==> delta[k] == DeltaAt(plane, w, k)
    {
      delta[i] := plane[i];
    }
    for row := 1 to h
      invariant row * w <= w * h
      invariant forall k :: 0 <= k < row * w ==> delta[k] == DeltaAt(plane, w, k)
    {
      RowFits(row, w, h);
      RowFits(row - 1, w, h);
      var base := row * w;
      for col := 0 to w
        invariant forall k :: 0 <= k < base + col ==> delta[k] == DeltaAt(plane, w, k)
      {
        delta[base + col] := Zigzag((plane[base + col] as int - plane[base - w + col]) % 256);
      }
    }
    assert h * w == w * h;
  }

  /** First sample of a row. */
  function RowStart(row: nat, w: nat): nat {
    row * w
  }

  lemma RowStarts(row: nat, w: nat, h: nat)
    requires row <= h
    ensures RowStart(0, w) == 0 && RowStart(h, w) == w * h
    ensures RowStart(row + 1, w) == RowStart(row, w) + w && w * (h - row) == w * h - RowStart(row, w)
    ensures RowStart(row, w) <= w * h && (row < h ==> RowStart(row + 1, w) <= w * h)
  {
    Distribute(row, 1, w);
    Distribute(row, h - row, w);
    if row < h {
      Distribute(1, h - row - 1, w);
    }
  }

  /** The rows from `row` on, one more row emitted. */
  lemma RowsFrom(all: seq<byte>, w: nat, h: nat, row: nat, out: seq<byte>)
    requires |all| == w * h && row < h
    ensures RowStart(row, w) + w == RowStart(row + 1, w) <= |all|
    ensures out + EncodeScanline(all[RowStart(row, w)..RowStart(row, w) + w]) + EncodeRows(all[RowStart(row + 1, w)..], w, h - row - 1)
         == out + EncodeRows(all[RowStart(row, w)..], w, h - row)
  {
    RowStarts(row, w, h);
    hide EncodeScanline, RowStart;
    var tail := all[RowStart(row, w)..];
    assert tail[..w] == all[RowStart(row, w)..RowStart(row, w) + w];
    assert tail[w..] == all[RowStart(row + 1, w)..];
    var line, rows := EncodeScanline(tail[..w]), EncodeRows(tail[w..], w, h - row - 1);
    assert out + line + rows == out + (line + rows);
  }

  /** `out'` is `out` and the code of the first `row` rows. */
  ghost predicate RowsOut(all: seq<byte>, w: nat, h: nat, row: nat, out: seq<byte>, out': seq<byte>) {
    && row <= h && RowStart(row, w) <= |all|
    && out' + EncodeRows(all[RowStart(row, w)..], w, h - row) == out + EncodeRows(all, w, h)
  }

  lemma RowsOutEnds(all: seq<byte>, w: nat, h: nat, out: seq<byte>, out': seq<byte>)
    requires |all| == w * h
    ensures RowsOut(all, w, h, 0, out, out)
    ensures RowsOut(all, w, h, h, out, out') ==> out' == out + EncodeRows(all, w, h)
  {
    RowStarts(0, w, h);
    assert all[0..] == all;
    NoRows(all[RowStart(h, w)..], w, out');
    hide EncodeRows, RowStart;
  }

  lemma RowsOutStep(all: seq<byte>, w: nat, h: nat, row: nat, out: seq<byte>, out': seq<byte>)
    requires |all| == w * h && row < h && RowsOut(all, w, h, row, out, out')
    ensures RowStart(row, w) + w <= |all|
    ensures RowsOut(all, w, h, row + 1, out, out' + EncodeScanline(all[RowStart(row, w)..RowStart(row, w) + w]))
  {
    hide EncodeRows, EncodeScanline, RowStart;
    RowsFrom(all, w, h, row, out');
  }

  method EncodeDeltaRows(delta: array<byte>, w: nat, h: nat, out: seq<byte>) returns (out': seq<byte>)
    requires w * h <= delta.Length
    ensures out' == out + EncodeRows(delta[..w * h], w, h)
  {
    hide EncodeRows, EncodeScanline, RowStart, RowsOut;
    ghost var all := delta[..w * h];
    out' := out;
    RowsOutEnds(all, w, h, out, out);
    for row := 0 to h
      invariant RowsOut(all, w, h, row, out, out')
    {
      RowsOutStep(all, w, h, row, out, out');
      var start := RowStart(row, w);
      assert delta[start..start + w] == all[start..start + w];
      out' := EncodeScanlineRle(delta[start..start + w], out');
    }
    RowsOutEnds(all, w, h, out, out');
  }

  lemma NoRows(delta: seq<byte>, w: nat, out: seq<byte>)
    ensures out + EncodeRows(delta, w, 0) == out
  {
  }

  /** The small-tile path: a fixed buffer of 4096 samples. */
  method EncodePlaneStack(plane: seq<byte>, w: nat, h: nat, out: seq<byte>) returns (out': seq<byte>)
    requires 0 < |plane| == w * h <= MAX_STACK_PIXELS
    ensures out' == out + EncodePlane(plane, w, h)
  {
    assert h > 0;
    var delta := new byte[MAX_STACK_PIXELS](_ => 0);
    FilterPlane(delta, plane, w, h);
    out' := EncodeDeltaRows(delta, w, h, out);
  }

  /** The large-tile path: a buffer of exactly the plane's size. Both paths emit the same bytes. */
  method EncodePlaneHeap(plane: seq<byte>, w: nat, h: nat, out: seq<byte>) returns (out': seq<byte>)
    requires 0 < |plane| == w * h
    ensures out' == out + EncodePlane(plane, w, h)
  {
    assert h > 0;
    var delta := new byte[w * h](_ => 0);
    FilterPlane(delta, plane, w, h);
    out' := EncodeDeltaRows(delta, w, h, out);
  }

  /** Splits the pixels into planes; both the pixel iterator and the planes may run out first. */
  method SplitPlanes(bgrx: seq<byte>, n: nat) returns (r: array<byte>, g: array<byte>, b: array<byte>)
    ensures r[..] == Component(bgrx, n, 2) && g[..] == Component(bgrx, n, 1) && b[..] == Component(bgrx, n, 0)
  {
    r, g, b := new byte[n](_ => 0), new byte[n](_ => 0), new byte[n](_ => 0);
    var i := 0;
    while i < n && 4 * i + 4 <= |bgrx|
      invariant i <= n
      invariant forall k :: 0 <= k < i ==> 4 * k + 4 <= |bgrx|
      invariant forall k :: 0 <= k < i ==> r[k] == bgrx[4 * k + 2] && g[k] == bgrx[4 * k + 1] && b[k] == bgrx[4 * k]
      invariant forall k :: i <= k < n ==> r[k] == 0 && g[k] == 0 && b[k] == 0
    {
      b[i] := bgrx[4 * i];
      g[i] := bgrx[4 * i + 1];
      r[i] := bgrx[4 * i + 2];
      i := i + 1;
    }
  }

  method EncodeTo(bgrx: seq<byte>, w: nat, h: nat) returns (out: seq<byte>)
    ensures out == Encode(bgrx, w, h)
  {
    hide EncodePlane;
    var n := w * h;
    out := [FORMAT_HEADER];
    if n == 0 {
      return;
    }
    var r, g, b := SplitPlanes(bgrx, n);
    if n <= MAX_STACK_PIXELS {
      out := EncodePlaneStack(r[..], w, h, out);
      out := EncodePlaneStack(g[..], w, h, out);
      out := EncodePlaneStack(b[..], w, h, out);
    } else {
      out := EncodePlaneHeap(r[..], w, h, out);
      out := EncodePlaneHeap(g[..], w, h, out);
      out := EncodePlaneHeap(b[..], w, h, out);
    }
  }

  /** Copies `count` literal bytes from the cursor into `a[at..hi)`. */
  method CopyLiterals(cursor: ReadCursor, a: array<byte>, at: nat, hi: nat, count: nat, last: byte)
    returns (r: Result<byte>)
    requires cursor.Valid() && at <= hi <= a.Length
    modifies cursor, a
    ensures cursor.Valid()
    ensures forall k :: 0 <= k < a.Length && !(at <= k < hi) ==> a[k] == old(a[k])
    ensures if |old(cursor.Rest())| < Min(count, hi - at) then r == Err(NotEnoughBytes)
            else if count > hi - at then r == Err(OVERRUN)
            else
              && r == Ok(if count == 0 then last else old(cursor.Rest())[count - 1])
              && cursor.Rest() == old(cursor.Rest())[count..]
              && a[at..at + count] == old(cursor.Rest())[..count]
  {
    ghost var s := cursor.Rest();
    var last' := last;
    for k := 0 to count
      invariant cursor.Valid() && k <= hi - at && k <= |s| && cursor.Rest() == s[k..]
      invariant a[at..at + k] == s[..k]
      invariant last' == if k == 0 then last else s[k - 1]
      invariant forall j :: 0 <= j < a.Length && !(at <= j < hi) ==> a[j] == old(a[j])
    {
      if at + k >= hi {
        return Err(OVERRUN);
      }
      var b := cursor.TakeU8();
      if b.Err? {
        return b;
      }
      a[at + k] := b.value;
      last' := b.value;
      assert a[at..at + k + 1] == a[at..at + k] + [s[k]] == s[..k + 1];
    }
    r := Ok(last');
  }

  /** Writes `count` copies of `b` at `a[at..hi)`; false when they overrun. */
  method FillRun(a: array<byte>, at: nat, hi: nat, count: nat, b: byte) returns (fits: bool)
    requires at <= hi <= a.Length
    modifies a
    ensures fits == (count <= hi - at)
    ensures fits ==> a[at..at + count] == Repeat(b, count)
    ensures forall k :: 0 <= k < a.Length && !(at <= k < hi) ==> a[k] == old(a[k])
  {
    for k := 0 to count
      invariant k <= hi - at
      invariant forall j :: at <= j < at + k ==> a[j] == b
      invariant forall j :: 0 <= j < a.Length && !(at <= j < hi) ==> a[j] == old(a[j])
    {
      if at + k >= hi {
        return false;
      }
      a[at + k] := b;
    }
    fits := true;
  }

  lemma DecodeFromEnds(s: seq<byte>, last: byte, n: nat)
    ensures n == 0 ==> DecodeFrom(s, last, n) == Ok(Parsed([], s))
    ensures n > 0 && s == [] ==> DecodeFrom(s, last, n) == Err(NotEnoughBytes)
    ensures n > 0 && s != [] && s[0] == 0 ==> DecodeFrom(s, last, n) == Err(ZERO_CONTROL)
  {
  }

  lemma SegmentFails(s: seq<byte>, last: byte, n: nat)
    requires n > 0 && s != [] && s[0] != 0
    ensures |s| - 1 < Min(LiteralCount(s[0]), n) ==> DecodeFrom(s, last, n) == Err(NotEnoughBytes)
    ensures |s| - 1 >= Min(LiteralCount(s[0]), n) && LiteralCount(s[0]) + RepeatCount(s[0]) > n ==>
              DecodeFrom(s, last, n) == Err(OVERRUN)
  {
    DecodeFromStep(s, last, n);
  }

  /** Copies a segment's literals and then repeats the last byte. */
  method FillSegment(cursor: ReadCursor, a: array<byte>, at: nat, hi: nat, lits: nat, reps: nat, last: byte)
    returns (r: Result<byte>)
    requires cursor.Valid() && at <= hi <= a.Length
    modifies cursor, a
    ensures cursor.Valid()
    ensures forall k :: 0 <= k < a.Length && !(at <= k < hi) ==> a[k] == old(a[k])
    ensures var s := old(cursor.Rest());
            if |s| < Min(lits, hi - at) then r == Err(NotEnoughBytes)
            else if lits + reps > hi - at then r == Err(OVERRUN)
            else
              && r == Ok(if lits == 0 then last else s[lits - 1])
              && cursor.Rest() == s[lits..]
              && a[at..at + lits + reps] == s[..lits] + Repeat(r.value, reps)
  {
    r := CopyLiterals(cursor, a, at, hi, lits, last);
    if r.Err? {
      return;
    }
    ghost var head := a[at..at + lits];
    var fits := FillRun(a, at + lits, hi, reps, r.value);
    if !fits {
      return Err(OVERRUN);
    }
    assert a[at..at + lits] == head;
    SplitArray(a, at, at + lits, at + lits + reps);
  }

  /** Reads one segment of a scanline whose unfilled part is `a[at..hi)`. */
  method DecodeSegment(cursor: ReadCursor, a: array<byte>, at: nat, hi: nat, last: byte)
    returns (r: Result<(nat, byte)>)
    requires cursor.Valid() && at < hi <= a.Length
    modifies cursor, a
    ensures cursor.Valid()
    ensures forall k :: 0 <= k < a.Length && !(at <= k < hi) ==> a[k] == old(a[k])
    ensures match r
            case Err(e) => DecodeFrom(old(cursor.Rest()), last, hi - at) == Err(e)
            case Ok((at', last')) =>
              && at < at' <= hi
              && DecodeFrom(old(cursor.Rest()), last, hi - at)
                 == Prepend(a[at..at'], DecodeFrom(cursor.Rest(), last', hi - at'))
  {
    hide DecodeFrom, LiteralCount, RepeatCount, Prepend, Repeat;
    ghost var s := cursor.Rest();
    DecodeFromEnds(s, last, hi - at);
    var control := cursor.TakeU8();
    if control.Err? {
      return Err(control.error);
    }
    if control.value == 0 {
      return Err(ZERO_CONTROL);
    }
    SegmentFails(s, last, hi - at);
    var lits, reps := LiteralCount(control.value), RepeatCount(control.value);
    var filled := FillSegment(cursor, a, at, hi, lits, reps, last);
    if filled.Err? {
      return Err(filled.error);
    }
    assert s[1..][..lits] == s[1..1 + lits] && s[1..][lits..] == s[1 + lits..];
    SegmentFits(s, last, hi - at, a[at..at + lits + reps], filled.value);
    return Ok((at + lits + reps, filled.value));
  }

  lemma SplitArray(a: array<byte>, lo: nat, at: nat, hi: nat)
    requires lo <= at <= hi <= a.Length
    ensures a[lo..hi] == a[lo..at] + a[at..hi]
  {
  }

  /** Fills `a[lo..hi)` with one decoded scanline. */
  method DecodeScanlineRle(cursor: ReadCursor, a: array<byte>, lo: nat, hi: nat) returns (r: Result<()>)
    requires cursor.Valid() && lo <= hi <= a.Length
    modifies cursor, a
    ensures cursor.Valid()
    ensures forall k :: 0 <= k < a.Length && !(lo <= k < hi) ==> a[k] == old(a[k])
    ensures match DecodeScanline(old(cursor.Rest()), hi - lo)
            case Ok(p) => r == Ok(()) && a[lo..hi] == p.value && cursor.Rest() == p.rest
            case Err(e) => r == Err(e)
  {
    hide DecodeFrom;
    ghost var s := cursor.Rest();
    var last: byte := 0;
    var pos := lo;
    PrependNothing(a[lo..lo], DecodeFrom(s, 0, hi - lo));
    while pos < hi
      invariant lo <= pos <= hi && cursor.Valid()
      invariant DecodeFrom(s, 0, hi - lo) == Prepend(a[lo..pos], DecodeFrom(cursor.Rest(), last, hi - pos))
      invariant forall k :: 0 <= k < a.Length && !(lo <= k < hi) ==> a[k] == old(a[k])
    {
      ghost var head := a[lo..pos];
      var seg := DecodeSegment(cursor, a, pos, hi, last);
      if seg.Err? {
        return Err(seg.error);
      }
      ghost var at := pos;
      pos, last := seg.value.0, seg.value.1;
      assert a[lo..at] == head;
      SplitArray(a, lo, at, pos);
      PrependPrepend(a[lo..at], a[at..pos], DecodeFrom(cursor.Rest(), last, hi - pos));
    }
    DecodeFromEnds(cursor.Rest(), last, 0);
    assert a[lo..hi] + [] == a[lo..hi];
    r := Ok(());
  }

  lemma DecodeRowsStep(s: seq<byte>, w: nat, h: nat)
    ensures h == 0 ==> DecodeRows(s, w, h) == Ok(Parsed([], s))
    ensures h > 0 ==>
              match DecodeScanline(s, w)
              case Err(e) => DecodeRows(s, w, h) == Err(e)
              case Ok(p) => DecodeRows(s, w, h) == Prepend(p.value, DecodeRows(p.rest, w, h - 1))
  {
  }

  method DecodeDeltaRows(cursor: ReadCursor, delta: array<byte>, w: nat, h: nat) returns (r: Result<()>)
    requires cursor.Valid() && delta.Length == w * h
    modifies cursor, delta
    ensures cursor.Valid()
    ensures match DecodeRows(old(cursor.Rest()), w, h)
            case Ok(p) => r == Ok(()) && delta[..] == p.value && cursor.Rest() == p.rest
            case Err(e) => r == Err(e)
  {
    hide DecodeRows, DecodeScanline;
    ghost var s := cursor.Rest();
    PrependNothing(delta[..0], DecodeRows(s, w, h));
    for row := 0 to h
      invariant cursor.Valid() && row * w <= w * h
      invariant DecodeRows(s, w, h) == Prepend(delta[..row * w], DecodeRows(cursor.Rest(), w, h - row))
    {
      RowFits(row, w, h);
      ghost var head := delta[..row * w];
      DecodeRowsStep(cursor.Rest(), w, h - row);
      var line := DecodeScanlineRle(cursor, delta, row * w, row * w + w);
      if line.Err? {
        return line;
      }
      assert delta[..row * w] == head;
      SplitArray(delta, 0, row * w, row * w + w);
      PrependPrepend(head, delta[row * w..row * w + w], DecodeRows(cursor.Rest(), w, h - row - 1));
    }
    DecodeRowsStep(cursor.Rest(), w, 0);
    assert h * w == w * h && delta[..w * h] == delta[..] == delta[..] + [];
    r := Ok(());
  }

  lemma {:induction false} UndeltaPrefix(delta: seq<byte>, w: nat, n: nat)
    requires w > 0 && n <= |delta|
    ensures Undelta(delta, w)[..n] == Undelta(delta[..n], w)
    decreases |delta|
  {
    if n < |delta| {
      UndeltaPrefix(delta[..|delta| - 1], w, n);
      assert delta[..|delta| - 1][..n] == delta[..n];
    } else {
      assert delta[..n] == delta && Undelta(delta, w)[..n] == Undelta(delta, w);
    }
  }

  /** Sample `i` of the unfiltered plane. */
  lemma UndeltaAt(delta: seq<byte>, w: nat, i: nat)
    requires w > 0 && i < |delta|
    ensures var p := Undelta(delta, w);
            p[i] == if i < w then delta[i] else (p[i - w] as int + Unzigzag(delta[i])) % 256
  {
    var p := Undelta(delta, w);
    UndeltaPrefix(delta, w, i);
    UndeltaPrefix(delta, w, i + 1);
    assert delta[..i + 1][..i] == delta[..i];
    assert p[..i + 1][i] == p[i];
    if i >= w {
      assert p[..i][i - w] == p[i - w];
    }
  }

  method UnfilterRow(plane: array<byte>, delta: array<byte>, w: nat, base: nat, ghost p: seq<byte>)
    requires plane != delta && w > 0 && w <= base && base + w <= delta.Length == plane.Length
    requires p == Undelta(delta[..], w)
    requires forall k :: 0 <= k < base ==> plane[k] == p[k]
    modifies plane
    ensures forall k :: 0 <= k < base + w ==> plane[k] == p[k]
  {
    hide Undelta;
    for col := 0 to w
      invariant forall k :: 0 <= k < base + col ==> plane[k] == p[k]
    {
      UndeltaAt(delta[..], w, base + col);
      plane[base + col] := (plane[base + col - w] as int + Unzigzag(delta[base + col])) % 256;
    }
  }

  method UnfilterPlane(delta: array<byte>, w: nat, h: nat) returns (plane: array<byte>)
    requires w > 0 && h > 0 && delta.Length == w * h
    ensures plane[..] == Undelta(delta[..], w)
  {
    hide Undelta;
    ghost var p := Undelta(delta[..], w);
    plane := new byte[w * h](_ => 0);
    RowFits(0, w, h);
    for i := 0 to w
      invariant forall k :: 0 <= k < i ==> plane[k] == p[k]
    {
      UndeltaAt(delta[..], w, i);
      plane[i] := delta[i];
    }
    for row := 1 to h
      invariant row * w <= w * h
      invariant forall k :: 0 <= k < row * w ==> plane[k] == p[k]
    {
      RowFits(row, w, h);
      RowFits(row - 1, w, h);
      UnfilterRow(plane, delta, w, row * w, p);
    }
    assert h * w == w * h;
  }

  method DecodePlaneFrom(cursor: ReadCursor, w: nat, h: nat) returns (r: Result<seq<byte>>)
    requires cursor.Valid()
    modifies cursor
    ensures cursor.Valid()
    ensures match DecodePlane(old(cursor.Rest()), w, h)
            case Ok(p) => r == Ok(p.value) && cursor.Rest() == p.rest
            case Err(e) => r == Err(e)
  {
    if w == 0 || h == 0 {
      return Ok([]);
    }
    var delta := new byte[w * h](_ => 0);
    var rows := DecodeDeltaRows(cursor, delta, w, h);
    if rows.Err? {
      return Err(rows.error);
    }
    var plane := UnfilterPlane(delta, w, h);
    r := Ok(plane[..]);
  }

  method DecodeTile(data: seq<byte>, w: nat, h: nat) returns (r: Result<seq<byte>>)
    ensures r == Decode(data, w, h)
  {
    hide DecodePlane;
    var cursor := new ReadCursor(data);
    var header := cursor.TakeU8();
    if header.Err? {
      return Err(header.error);
    }
    if header.value != FORMAT_HEADER {
      return Err(InvalidValue("rdp6.format_header"));
    }
    var red := DecodePlaneFrom(cursor, w, h);
    if red.Err? {
      return Err(red.error);
    }
    var green := DecodePlaneFrom(cursor, w, h);
    if green.Err? {
      return Err(green.error);
    }
    var blue := DecodePlaneFrom(cursor, w, h);
    if blue.Err? {
      return Err(blue.error);
    }
    var bgrx := JoinPlanes(red.value, green.value, blue.value);
    r := Ok(bgrx);
  }

  /** Writes the planes back into pixels, leaving every X byte 0. */
  method JoinPlanes(r: seq<byte>, g: seq<byte>, b: seq<byte>) returns (out: seq<byte>)
    requires |r| == |g| == |b|
    ensures out == Interleave(r, g, b)
  {
    var n := |r|;
    var bgrx := new byte[4 * n](_ => 0);
    for i := 0 to n
      invariant forall k :: 0 <= k < 4 * i ==> bgrx[k] == Interleave(r, g, b)[k]
      invariant forall k :: 4 * i <= k < 4 * n ==> bgrx[k] == 0
    {
      bgrx[4 * i] := b[i];
      bgrx[4 * i + 1] := g[i];
      bgrx[4 * i + 2] := r[i];
    }
    out := bgrx[..];
    assert out == Interleave(r, g, b);
  }
}
