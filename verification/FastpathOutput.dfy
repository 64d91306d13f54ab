/**
  Fast-path output (sections 2.2.9.1.2 and 2.2.9.1.2.1 of MS-RDPBCGR), after crates/rdpcore-pdu/src/fastpath.rs and
  the fragmentation of crates/rdpcore-server/src/encode.rs: an update cut into fragments, each in a frame of its own,
  and the client's side of it.
 */
module FastpathOutput {
  import opened Bytes
  import Per
  import Fastpath

  const MAX_CHUNK: nat := 16374

  datatype Fragmentation = Single | First | Next | Last

  function Code(f: Fragmentation): byte {
    match f
    case Single => 0
    case Last => 1
    case First => 2
    case Next => 3
  }

  function FromCode(n: nat): Fragmentation {
    if n == 0 then Single else if n == 1 then Last else if n == 2 then First else Next
  }

  datatype Pdu = Pdu(code: byte, fragmentation: Fragmentation, data: seq<byte>)

  // ------------------------------------------------------------------
  // One frame
  // ------------------------------------------------------------------

  function Header(p: Pdu): byte {
    p.code % 16 + 16 * (Code(p.fragmentation) as int)
  }

  function WritePdu(p: Pdu, tail: seq<byte>): seq<byte> {
    [Header(p)] + (U16Le(Cut16(|p.data|)) + (p.data + tail))
  }

  /** The length counts the header and itself. */
  function WriteFrame(inner: seq<byte>): seq<byte> {
    var prefix := 1 + |inner|;
    [0] + (Per.WriteLength(if prefix < 0x7F then prefix + 1 else prefix + 2) + inner)
  }

  function ReadPdu(s: seq<byte>): Result<Parsed<Pdu>> {
    var header :- ReadU8(s);
    if header.value / 128 == 1 then Err(InvalidValue("fast_path_update.compression"))
    else
      var size :- ReadU16Le(header.rest);
      var data :- ReadSlice(size.rest, size.value);
      Ok(Parsed(Pdu(header.value % 16, FromCode(header.value / 16 % 4), data.value), data.rest))
  }

  function ReadPdus(s: seq<byte>): Result<seq<Pdu>>
    decreases |s|
  {
    if s == [] then Ok([])
    else
      var p :- ReadPdu(s);
      if |p.rest| >= |s| then Err(NotEnoughBytes)
      else
        var more :- ReadPdus(p.rest);
        Ok([p.value] + more)
  }

  function ReadFrame(s: seq<byte>): Result<seq<Pdu>> {
    var header :- ReadU8(s);
    if header.value % 4 != 0 then Err(InvalidValue("fast_path_output.action"))
    else if header.value / 64 != 0 then Err(InvalidValue("fast_path_output.flags"))
    else
      var total :- Per.ReadLength(header.rest);
      var consumed := |s| - |total.rest|;
      var inner :- ReadSlice(total.rest, if total.value < consumed then 0 else total.value - consumed);
      ReadPdus(inner.value)
  }

  lemma HeaderReads(p: Pdu)
    requires p.code < 16
    ensures Header(p) / 128 == 0 && Header(p) % 16 == p.code && FromCode(Header(p) / 16 % 4) == p.fragmentation
  {
  }

  lemma PduReads(p: Pdu, tail: seq<byte>)
    requires p.code < 16 && |p.data| < 0x1_0000
    ensures ReadPdu(WritePdu(p, tail)) == Ok(Parsed(p, tail)) && |WritePdu(p, tail)| == 3 + |p.data| + |tail|
  {
    hide ReadU16Le, U16Le, ReadSlice, Header, FromCode;
    HeaderReads(p);
    var s := p.data + tail;
    assert Cut16(|p.data|) == |p.data|;
    ReadBackU16(|p.data|, s);
    ReadBackSlice(p.data, tail);
    TwoBytes(|p.data|);
    assert WritePdu(p, tail)[1..] == U16Le(|p.data|) + s;
  }

  lemma TwoBytes(n: u16)
    ensures |U16Le(n)| == 2
  {
  }

  /** A frame with one PDU reads back as it. */
  lemma FrameReads(p: Pdu)
    requires p.code < 16 && |p.data| <= MAX_CHUNK
    ensures ReadFrame(WriteFrame(WritePdu(p, []))) == Ok([p])
  {
    hide WritePdu, ReadPdu, Per.WriteLength, Per.ReadLength;
    PduReads(p, []);
    var inner := WritePdu(p, []);
    var prefix := 1 + |inner|;
    var total := if prefix < 0x7F then prefix + 1 else prefix + 2;
    var s := WriteFrame(inner);
    assert s[1..] == Per.WriteLength(total) + inner;
    Per.LengthRoundTripIff(total, inner);
    LengthWidth(total);
    assert ReadSlice(inner, |inner|).value.value == inner;
    ReadsOne(p, inner);
  }

  lemma ReadsOne(p: Pdu, inner: seq<byte>)
    requires inner != [] && ReadPdu(inner) == Ok(Parsed(p, []))
    ensures ReadPdus(inner) == Ok([p])
  {
    hide ReadPdu;
    assert ReadPdus([]) == Ok([]);
    assert [p] + [] == [p];
  }

  lemma LengthWidth(n: nat)
    ensures |Per.WriteLength(n)| == if n <= 0x7F then 1 else 2
  {
  }

  // ------------------------------------------------------------------
  // Fragments
  // ------------------------------------------------------------------

  /** The fragments of `data`; the first of an update only if `first`. */
  function Fragments(code: byte, data: seq<byte>, chunk: nat, first: bool): seq<Pdu>
    requires chunk > 0
    decreases |data|
  {
    if data == [] then []
    else if |data| <= chunk then [Pdu(code, if first then Single else Last, data)]
    else [Pdu(code, if first then First else Next, data[..chunk])] + Fragments(code, data[chunk..], chunk, false)
  }

  function ChunkSize(maxRequest: nat): (n: nat)
    ensures 1 <= n <= MAX_CHUNK
  {
    if maxRequest == 0 then 1 else if maxRequest < MAX_CHUNK then maxRequest else MAX_CHUNK
  }

  function Frames(pdus: seq<Pdu>): seq<seq<byte>> {
    if pdus == [] then [] else [WriteFrame(WritePdu(pdus[0], []))] + Frames(pdus[1..])
  }

  function EncodeUpdate(code: byte, body: seq<byte>, maxRequest: nat): seq<seq<byte>> {
    Frames(Fragments(code, body, ChunkSize(maxRequest), true))
  }

  /** What the client has of an unfinished update, and the updates it has completed. */
  datatype Client = Client(partial: Option<seq<byte>>, updates: seq<(byte, seq<byte>)>)

  function OnPdu(c: Client, p: Pdu): Client {
    match p.fragmentation
    case Single => Client(None, c.updates + [(p.code, p.data)])
    case First => c.(partial := Some(p.data))
    case Next => if c.partial.Some? then c.(partial := Some(c.partial.value + p.data)) else c
    case Last => if c.partial.Some? then Client(None, c.updates + [(p.code, c.partial.value + p.data)]) else c
  }

  function OnPdus(c: Client, pdus: seq<Pdu>): Client
    decreases |pdus|
  {
    if pdus == [] then c else OnPdus(OnPdu(c, pdus[0]), pdus[1..])
  }

  function OnFrames(c: Client, frames: seq<seq<byte>>): Client
    decreases |frames|
  {
    if frames == [] then c
    else
      match ReadFrame(frames[0])
      case Err(_) => OnFrames(c, frames[1..])
      case Ok(pdus) => OnFrames(OnPdus(c, pdus), frames[1..])
  }

  /** Each PDU fits a frame of its own. */
  ghost predicate Framed(pdus: seq<Pdu>) {
    forall i :: 0 <= i < |pdus| ==> pdus[i].code < 16 && |pdus[i].data| <= MAX_CHUNK
  }

  lemma {:induction false} FramesArePdus(c: Client, pdus: seq<Pdu>)
    requires Framed(pdus)
    ensures OnFrames(c, Frames(pdus)) == OnPdus(c, pdus)
    decreases |pdus|
  {
    hide ReadFrame, WriteFrame, WritePdu;
    if pdus != [] {
      var p := pdus[0];
      FrameReads(p);
      assert [p][1..] == [];
      assert OnPdus(c, [p]) == OnPdu(c, p);
      assert Frames(pdus)[1..] == Frames(pdus[1..]);
      FramesArePdus(OnPdu(c, p), pdus[1..]);
    }
  }

  lemma {:induction false} FragmentsSmall(code: byte, data: seq<byte>, chunk: nat, first: bool)
    requires 0 < chunk <= MAX_CHUNK && code < 16
    ensures Framed(Fragments(code, data, chunk, first))
    decreases |data|
  {
    if |data| > chunk {
      FragmentsSmall(code, data[chunk..], chunk, false);
      var fs := Fragments(code, data, chunk, first);
      assert |fs[0].data| == chunk;
      assert fs[1..] == Fragments(code, data[chunk..], chunk, false);
      assert forall i :: 1 <= i < |fs| ==> fs[i] == fs[1..][i - 1];
    }
  }

  lemma {:induction false} FragmentsComplete(c: Client, code: byte, data: seq<byte>, chunk: nat, first: bool)
    requires 0 < chunk && data != [] && (first || c.partial.Some?)
    ensures var whole := if first then data else c.partial.value + data;
            OnPdus(c, Fragments(code, data, chunk, first)) == Client(None, c.updates + [(code, whole)])
    decreases |data|
  {
    var fs := Fragments(code, data, chunk, first);
    if |data| <= chunk {
      assert fs[1..] == [];
    } else {
      var rest := Fragments(code, data[chunk..], chunk, false);
      assert fs[1..] == rest;
      var c' := OnPdu(c, fs[0]);
      FragmentsComplete(c', code, data[chunk..], chunk, false);
      assert data[..chunk] + data[chunk..] == data;
      if !first {
        assert c.partial.value + data[..chunk] + data[chunk..] == c.partial.value + data;
      }
    }
  }

  /** The frames of an update give the client exactly that update, whatever it had of another. */
  lemma UpdateReassembles(c: Client, code: byte, body: seq<byte>, maxRequest: nat)
    requires body != [] && code < 16
    ensures OnFrames(c, EncodeUpdate(code, body, maxRequest)) == Client(None, c.updates + [(code, body)])
  {
    hide OnFrames, Frames;
    FragmentsSmall(code, body, ChunkSize(maxRequest), true);
    FramesArePdus(c, Fragments(code, body, ChunkSize(maxRequest), true));
    FragmentsComplete(c, code, body, ChunkSize(maxRequest), true);
  }

  lemma {:induction false} OnPdusAppend(c: Client, a: seq<Pdu>, b: seq<Pdu>)
    ensures OnPdus(c, a + b) == OnPdus(OnPdus(c, a), b)
    decreases |a|
  {
    if a == [] {
      assert a + b == b;
    } else {
      assert (a + b)[1..] == a[1..] + b;
      OnPdusAppend(OnPdu(c, a[0]), a[1..], b);
    }
  }

  /** Updates already completed make no difference. */
  lemma {:induction false} OnPdusFrom(c: Client, pdus: seq<Pdu>)
    ensures var r := OnPdus(Client(c.partial, []), pdus);
            OnPdus(c, pdus) == Client(r.partial, c.updates + r.updates)
    decreases |pdus|
  {
    if pdus == [] {
      assert c.updates + [] == c.updates;
    } else {
      var p, rest := pdus[0], pdus[1..];
      var one := OnPdu(Client(c.partial, []), p);
      assert OnPdu(c, p) == Client(one.partial, c.updates + one.updates);
      OnPdusFrom(OnPdu(c, p), rest);
      OnPdusFrom(one, rest);
      var r := OnPdus(Client(one.partial, []), rest);
      assert c.updates + one.updates + r.updates == c.updates + (one.updates + r.updates);
    }
  }

  // ------------------------------------------------------------------
  // Bitmap updates
  // ------------------------------------------------------------------

  const UPDATE_CODE_BITMAP: byte := 1
  const BITMAP_UPDATE_TYPE: u16 := 1

  function WriteRects(rs: seq<Fastpath.BitmapRect>): seq<byte> {
    if rs == [] then [] else Fastpath.WriteRect(rs[0], WriteRects(rs[1..]))
  }

  function ReadRects(n: nat, s: seq<byte>): Result<seq<Fastpath.BitmapRect>> {
    if n == 0 then Ok([])
    else
      var r :- Fastpath.ReadRect(s);
      var more :- ReadRects(n - 1, r.rest);
      Ok([r.value] + more)
  }

  function WriteBitmaps(rs: seq<Fastpath.BitmapRect>): seq<byte> {
    U16Le(BITMAP_UPDATE_TYPE) + (U16Le(Cut16(|rs|)) + WriteRects(rs))
  }

  function ReadBitmaps(s: seq<byte>): Result<seq<Fastpath.BitmapRect>> {
    var kind :- ReadU16Le(s);
    if kind.value % 2 == 0 then Err(InvalidValue("bitmap_update_data.update_type"))
    else
      var count :- ReadU16Le(kind.rest);
      ReadRects(count.value, count.rest)
  }

  ghost predicate Small(rs: seq<Fastpath.BitmapRect>) {
    forall i :: 0 <= i < |rs| ==> |rs[i].data| < 0x1_0000
  }

  lemma {:induction false} RectsRoundTripIff(rs: seq<Fastpath.BitmapRect>)
    ensures ReadRects(|rs|, WriteRects(rs)) == Ok(rs) <==> Small(rs)
    decreases |rs|
  {
    hide Fastpath.ReadRect, Fastpath.WriteRect;
    if rs != [] {
      RectsRoundTripIff(rs[1..]);
      FirstReads(rs);
      assert rs == [rs[0]] + rs[1..];
      if |rs[0].data| < 0x1_0000 {
        SmallSplits(rs);
      } else {
        assert !Small(rs);
      }
    }
  }

  lemma SmallSplits(rs: seq<Fastpath.BitmapRect>)
    requires rs != [] && |rs[0].data| < 0x1_0000
    ensures Small(rs) <==> Small(rs[1..])
  {
    if Small(rs[1..]) {
      forall i | 0 <= i < |rs| ensures |rs[i].data| < 0x1_0000 {
        if i > 0 {
          assert rs[1..][i - 1] == rs[i];
        }
      }
    }
  }

  lemma FirstReads(rs: seq<Fastpath.BitmapRect>)
    requires rs != []
    ensures |rs[0].data| < 0x1_0000 ==> Fastpath.ReadRect(WriteRects(rs)) == Ok(Parsed(rs[0], WriteRects(rs[1..])))
    ensures |rs[0].data| >= 0x1_0000 ==>
              Fastpath.ReadRect(WriteRects(rs)).Ok? && Fastpath.ReadRect(WriteRects(rs)).value.value != rs[0]
  {
    hide Fastpath.ReadRect, Fastpath.WriteRect;
    Fastpath.RectRoundTripIff(rs[0], WriteRects(rs[1..]));
    Fastpath.RectReads(rs[0], WriteRects(rs[1..]));
    if |rs[0].data| >= 0x1_0000 {
      assert |Fastpath.Received(rs[0].data, WriteRects(rs[1..])).value| < 0x1_0000;
    }
  }

  lemma CountReads(rs: seq<Fastpath.BitmapRect>)
    ensures ReadBitmaps(WriteBitmaps(rs)) == ReadRects(Cut16(|rs|), WriteRects(rs))
  {
    hide ReadRects, WriteRects, ReadU16Le, U16Le, Cut16;
    var n, rects := Cut16(|rs|), WriteRects(rs);
    ReadBackU16(n, rects);
    ReadBackU16(BITMAP_UPDATE_TYPE, U16Le(n) + rects);
  }

  /** A bitmap update reads back exactly when its count and every data length fit their 16 bits. */
  lemma BitmapsRoundTripIff(rs: seq<Fastpath.BitmapRect>)
    ensures ReadBitmaps(WriteBitmaps(rs)) == Ok(rs) <==> |rs| < 0x1_0000 && Small(rs)
  {
    hide ReadRects, WriteRects, ReadBitmaps, WriteBitmaps, Small;
    CountReads(rs);
    RectsRoundTripIff(rs);
    ReadCount(Cut16(|rs|), WriteRects(rs));
  }

  lemma {:induction false} ReadCount(n: nat, s: seq<byte>)
    ensures ReadRects(n, s).Ok? ==> |ReadRects(n, s).value| == n
    decreases n
  {
    hide Fastpath.ReadRect;
    if n > 0 && Fastpath.ReadRect(s).Ok? {
      ReadCount(n - 1, Fastpath.ReadRect(s).value.rest);
    }
  }

  // ------------------------------------------------------------------
  // All the rectangles of an update
  // ------------------------------------------------------------------

  const COMPAT_MAX_RECTS: nat := 32

  /** How many rectangles may share a bitmap update; fewer for the clients known to be strict. */
  function MaxRects(maxRequest: nat, compat: bool): (n: nat)
    ensures n > 0
  {
    var n := if maxRequest < 8192 then 1 else maxRequest / 8192;
    if compat then Min(COMPAT_MAX_RECTS, n) else n
  }

  const UPDATE_CODE_SURFACE_COMMANDS: byte := 4
  const CMD_FRAME_MARKER: u16 := 4
  const FRAME_ACTION_BEGIN: u16 := 0
  const FRAME_ACTION_END: u16 := 1

  function UpdatePdus(code: byte, body: seq<byte>, maxRequest: nat): seq<Pdu> {
    Fragments(code, body, ChunkSize(maxRequest), true)
  }

  /** A frame marker; its frame number draws nothing and is left at 0. */
  function Marker(action: u16): seq<byte> {
    U16Le(CMD_FRAME_MARKER) + U16Le(action) + U32Le(0)
  }

  /** The rectangles in groups of at most `max`, each a bitmap update of its own. */
  function GroupPdus(rs: seq<Fastpath.BitmapRect>, max: nat, maxRequest: nat): seq<Pdu>
    requires max > 0
    decreases |rs|
  {
    if rs == [] then []
    else
      var n := Min(max, |rs|);
      UpdatePdus(UPDATE_CODE_BITMAP, WriteBitmaps(rs[..n]), maxRequest) + GroupPdus(rs[n..], max, maxRequest)
  }

  const SERVER_MAX_REQUEST: nat := 0x80_0000

  /** The request size both sides take: at most the server's 8 MiB, at least one whole fragment. */
  function MaxRequest(offered: Option<u32>): (n: nat)
    ensures MAX_CHUNK <= n <= SERVER_MAX_REQUEST
  {
    var n := if offered.Some? then Min(offered.value, SERVER_MAX_REQUEST) else SERVER_MAX_REQUEST;
    if n < MAX_CHUNK then MAX_CHUNK else n
  }

  /** Everything one bitmap is sent as: its groups, between two frame markers. */
  function SendPdus(rs: seq<Fastpath.BitmapRect>, offered: Option<u32>, compat: bool): seq<Pdu> {
    var limit := MaxRequest(offered);
    UpdatePdus(UPDATE_CODE_SURFACE_COMMANDS, Marker(FRAME_ACTION_BEGIN), limit)
    + GroupPdus(rs, MaxRects(limit, compat), limit)
    + UpdatePdus(UPDATE_CODE_SURFACE_COMMANDS, Marker(FRAME_ACTION_END), limit)
  }

  /** The rectangles of one completed update; one that cannot be read draws nothing. */
  function RectsOf(update: (byte, seq<byte>)): seq<Fastpath.BitmapRect> {
    match ReadBitmaps(update.1)
    case Ok(rs) => if update.0 == UPDATE_CODE_BITMAP then rs else []
    case Err(_) => []
  }

  function Received(updates: seq<(byte, seq<byte>)>): seq<Fastpath.BitmapRect> {
    if updates == [] then [] else RectsOf(updates[0]) + Received(updates[1..])
  }

  /** What a client that had received nothing makes of the frames. */
  function Decode(frames: seq<seq<byte>>): seq<Fastpath.BitmapRect> {
    Received(OnFrames(Client(None, []), frames).updates)
  }

  /** What a client makes of PDUs, with `partial` of an update before them. */
  function Makes(partial: Option<seq<byte>>, pdus: seq<Pdu>): seq<Fastpath.BitmapRect> {
    Received(OnPdus(Client(partial, []), pdus).updates)
  }

  /** What it then has of an unfinished update. */
  function Leaves(partial: Option<seq<byte>>, pdus: seq<Pdu>): Option<seq<byte>> {
    OnPdus(Client(partial, []), pdus).partial
  }

  lemma {:induction false} ReceivedAppend(a: seq<(byte, seq<byte>)>, b: seq<(byte, seq<byte>)>)
    ensures Received(a + b) == Received(a) + Received(b)
    decreases |a|
  {
    hide RectsOf;
    if a == [] {
      assert a + b == b;
    } else {
      assert (a + b)[1..] == a[1..] + b;
      ReceivedAppend(a[1..], b);
    }
  }

  lemma ReceivedOne(update: (byte, seq<byte>))
    ensures Received([update]) == RectsOf(update)
  {
    hide RectsOf;
    assert [update][1..] == [];
    assert RectsOf(update) + [] == RectsOf(update);
  }

  lemma MakesAppend(partial: Option<seq<byte>>, a: seq<Pdu>, b: seq<Pdu>)
    ensures Makes(partial, a + b) == Makes(partial, a) + Makes(Leaves(partial, a), b)
    ensures Leaves(partial, a + b) == Leaves(Leaves(partial, a), b)
  {
    hide OnPdus, Received;
    var c := OnPdus(Client(partial, []), a);
    OnPdusAppend(Client(partial, []), a, b);
    OnPdusFrom(c, b);
    ReceivedAppend(c.updates, OnPdus(Client(c.partial, []), b).updates);
  }

  lemma MakesNothing(partial: Option<seq<byte>>)
    ensures Makes(partial, []) == [] && Leaves(partial, []) == partial
  {
  }

  lemma MakesFirst(partial: Option<seq<byte>>, pdus: seq<Pdu>)
    requires pdus != []
    ensures Makes(partial, pdus) == Makes(partial, [pdus[0]]) + Makes(Leaves(partial, [pdus[0]]), pdus[1..])
    ensures Leaves(partial, pdus) == Leaves(Leaves(partial, [pdus[0]]), pdus[1..])
  {
    hide Makes, Leaves;
    MakesAppend(partial, [pdus[0]], pdus[1..]);
    assert [pdus[0]] + pdus[1..] == pdus;
  }

  /** An update sent whole is made of it, whatever was unfinished before. */
  lemma UpdateMakes(partial: Option<seq<byte>>, code: byte, body: seq<byte>, maxRequest: nat)
    requires body != []
    ensures Makes(partial, UpdatePdus(code, body, maxRequest)) == RectsOf((code, body))
    ensures Leaves(partial, UpdatePdus(code, body, maxRequest)) == None
  {
    hide OnPdus, Fragments, RectsOf, Received;
    FragmentsComplete(Client(partial, []), code, body, ChunkSize(maxRequest), true);
    assert [] + [(code, body)] == [(code, body)];
    ReceivedOne((code, body));
  }

  // ------------------------------------------------------------------
  // All of them arrive
  // ------------------------------------------------------------------

  /** What the client reads of one group: never more rectangles than were sent, and all of them exactly if they fit. */
  lemma GroupReads(rs: seq<Fastpath.BitmapRect>)
    ensures var got := RectsOf((UPDATE_CODE_BITMAP, WriteBitmaps(rs)));
            |got| <= |rs| && (got == rs <==> |rs| < 0x1_0000 && Small(rs))
  {
    hide ReadBitmaps, WriteBitmaps, ReadRects, WriteRects, Small;
    BitmapsRoundTripIff(rs);
    CountReads(rs);
    ReadCount(Cut16(|rs|), WriteRects(rs));
    NotEmpty(rs);
  }

  lemma NotEmpty(rs: seq<Fastpath.BitmapRect>)
    ensures WriteBitmaps(rs) != []
    ensures ReadBitmaps(WriteBitmaps(rs)).Err? ==> rs != []
  {
    CountReads(rs);
  }

  /** What the client reads of all the groups. */
  function Got(rs: seq<Fastpath.BitmapRect>, max: nat): seq<Fastpath.BitmapRect>
    requires max > 0
    decreases |rs|
  {
    if rs == [] then []
    else RectsOf((UPDATE_CODE_BITMAP, WriteBitmaps(rs[..Min(max, |rs|)]))) + Got(rs[Min(max, |rs|)..], max)
  }

  lemma {:induction false} GroupsMake(rs: seq<Fastpath.BitmapRect>, max: nat, maxRequest: nat)
    requires max > 0
    ensures Makes(None, GroupPdus(rs, max, maxRequest)) == Got(rs, max)
    ensures Leaves(None, GroupPdus(rs, max, maxRequest)) == None
    decreases |rs|
  {
    hide Makes, Leaves, UpdatePdus, WriteBitmaps, RectsOf;
    if rs == [] {
      MakesNothing(None);
    } else {
      var n := Min(max, |rs|);
      var body := WriteBitmaps(rs[..n]);
      NotEmpty(rs[..n]);
      UpdateMakes(None, UPDATE_CODE_BITMAP, body, maxRequest);
      GroupsMake(rs[n..], max, maxRequest);
      MakesAppend(None, UpdatePdus(UPDATE_CODE_BITMAP, body, maxRequest), GroupPdus(rs[n..], max, maxRequest));
    }
  }

  lemma MarkerMakes(partial: Option<seq<byte>>, action: u16, maxRequest: nat)
    ensures var pdus := UpdatePdus(UPDATE_CODE_SURFACE_COMMANDS, Marker(action), maxRequest);
            Makes(partial, pdus) == [] && Leaves(partial, pdus) == None
  {
    hide UpdatePdus, ReadBitmaps;
    var body := Marker(action);
    assert body != [];
    UpdateMakes(partial, UPDATE_CODE_SURFACE_COMMANDS, body, maxRequest);
  }

  /** A whole send makes its own rectangles, whatever was unfinished before, and leaves nothing unfinished. */
  lemma SendMakes(partial: Option<seq<byte>>, rs: seq<Fastpath.BitmapRect>, offered: Option<u32>, compat: bool)
    ensures Makes(partial, SendPdus(rs, offered, compat)) == Got(rs, MaxRects(MaxRequest(offered), compat))
    ensures Leaves(partial, SendPdus(rs, offered, compat)) == None
  {
    hide Makes, Leaves, UpdatePdus, GroupPdus, Got, Marker, MaxRects, MaxRequest;
    var limit := MaxRequest(offered);
    var max := MaxRects(limit, compat);
    var begin := UpdatePdus(UPDATE_CODE_SURFACE_COMMANDS, Marker(FRAME_ACTION_BEGIN), limit);
    var end := UpdatePdus(UPDATE_CODE_SURFACE_COMMANDS, Marker(FRAME_ACTION_END), limit);
    var groups := GroupPdus(rs, max, limit);
    MarkerMakes(partial, FRAME_ACTION_BEGIN, limit);
    GroupsMake(rs, max, limit);
    MarkerMakes(None, FRAME_ACTION_END, limit);
    MakesAppend(partial, begin, groups);
    MakesAppend(partial, begin + groups, end);
    assert [] + Got(rs, max) + [] == Got(rs, max);
  }

  lemma SmallParts(rs: seq<Fastpath.BitmapRect>, n: nat)
    requires n <= |rs|
    ensures Small(rs) <==> Small(rs[..n]) && Small(rs[n..])
  {
    if Small(rs[..n]) && Small(rs[n..]) {
      forall i | 0 <= i < |rs| ensures |rs[i].data| < 0x1_0000 {
        if i < n {
          assert rs[..n][i] == rs[i];
        } else {
          assert rs[n..][i - n] == rs[i];
        }
      }
    }
  }

  lemma PartsAgreeIff<T>(a: seq<T>, b: seq<T>, c: seq<T>, d: seq<T>)
    requires |a| <= |c| && |b| <= |d|
    ensures a + b == c + d <==> a == c && b == d
  {
    if a + b == c + d {
      assert |a + b| == |a| + |b| && |c + d| == |c| + |d|;
      assert a == (a + b)[..|a|] && b == (a + b)[|a|..];
    }
  }

  lemma {:induction false} GotIff(rs: seq<Fastpath.BitmapRect>, max: nat)
    requires max > 0
    ensures |Got(rs, max)| <= |rs|
    ensures Got(rs, max) == rs <==> Small(rs) && Min(max, |rs|) < 0x1_0000
    decreases |rs|
  {
    hide RectsOf, WriteBitmaps, Small;
    var n := Min(max, |rs|);
    SmallParts(rs, n);
    if rs == [] {
      NoneIsSmall();
    } else {
      var head, tail := rs[..n], rs[n..];
      var got := RectsOf((UPDATE_CODE_BITMAP, WriteBitmaps(head)));
      GroupReads(head);
      GotIff(tail, max);
      PartsAgreeIff(got, Got(tail, max), head, tail);
      assert head + tail == rs;
    }
  }

  lemma NoneIsSmall()
    ensures Small([])
  {
  }

  /** No group outgrows its 16-bit count. */
  lemma GroupsFit(maxRequest: nat, compat: bool)
    requires maxRequest <= SERVER_MAX_REQUEST
    ensures MaxRects(maxRequest, compat) <= 1024
  {
  }

  /**
    Whatever request size a client offers, and however its limit has the rectangles grouped and the updates cut
    into frames, it ends up with all of them, in order, exactly when every data length fits its 16-bit field.
   */
  lemma SendArrivesIff(rs: seq<Fastpath.BitmapRect>, offered: Option<u32>, compat: bool)
    ensures Decode(Frames(SendPdus(rs, offered, compat))) == rs <==> Small(rs)
  {
    hide OnFrames, Frames, SendPdus, Got, Small, MaxRects, Received, OnPdus;
    FramesMake(rs, offered, compat);
    SendMakes(None, rs, offered, compat);
    GotIff(rs, MaxRects(MaxRequest(offered), compat));
    GroupsFit(MaxRequest(offered), compat);
  }

  lemma FramesMake(rs: seq<Fastpath.BitmapRect>, offered: Option<u32>, compat: bool)
    ensures Decode(Frames(SendPdus(rs, offered, compat))) == Makes(None, SendPdus(rs, offered, compat))
  {
    hide OnFrames, Frames, SendPdus, Received, OnPdus;
    SendIsChained(rs, offered, compat);
    FramesArePdus(Client(None, []), SendPdus(rs, offered, compat));
  }

  // ------------------------------------------------------------------
  // The shape of a send
  // ------------------------------------------------------------------

  /** Continues an update. */
  predicate Mid(p: Pdu) {
    p.fragmentation.Next? || p.fragmentation.Last?
  }

  /** Completes one. */
  predicate Ends(p: Pdu) {
    p.fragmentation.Single? || p.fragmentation.Last?
  }

  /** Each PDU continues the one before it exactly if that did not complete its update; each fits a frame. */
  ghost predicate Chained(pdus: seq<Pdu>) {
    && Framed(pdus)
    && forall i :: 0 < i < |pdus| ==> (Mid(pdus[i]) <==> !Ends(pdus[i - 1]))
  }

  /** A chain of whole updates. */
  ghost predicate Whole(pdus: seq<Pdu>) {
    Chained(pdus) && (pdus != [] ==> !Mid(pdus[0]) && Ends(pdus[|pdus| - 1]))
  }

  lemma WholeAppend(a: seq<Pdu>, b: seq<Pdu>)
    requires Whole(a) && Whole(b)
    ensures Whole(a + b)
  {
    var all := a + b;
    forall i | 0 < i < |all| ensures Mid(all[i]) <==> !Ends(all[i - 1]) {
      if i < |a| {
        assert all[i] == a[i] && all[i - 1] == a[i - 1];
      } else if i > |a| {
        assert all[i] == b[i - |a|] && all[i - 1] == b[i - |a| - 1];
      } else {
        assert all[i] == b[0] && all[i - 1] == a[|a| - 1];
      }
    }
  }

  /** The fragments of one update. */
  ghost predicate Update(fs: seq<Pdu>, first: bool) {
    && fs != [] && Mid(fs[0]) == !first
    && forall i :: 0 <= i < |fs| ==> (Ends(fs[i]) <==> i == |fs| - 1) && (i > 0 ==> Mid(fs[i]))
  }

  lemma {:induction false} FragmentsChained(code: byte, data: seq<byte>, chunk: nat, first: bool)
    requires chunk > 0 && data != []
    ensures Update(Fragments(code, data, chunk, first), first)
    ensures |data| <= chunk ==> |Fragments(code, data, chunk, first)| == 1
    decreases |data|
  {
    if |data| > chunk {
      var fs, rest := Fragments(code, data, chunk, first), Fragments(code, data[chunk..], chunk, false);
      FragmentsChained(code, data[chunk..], chunk, false);
      hide Fragments;
      assert |fs| == 1 + |rest| && forall i :: 1 <= i < |fs| ==> fs[i] == rest[i - 1];
      assert !Ends(fs[0]) && Mid(fs[0]) == !first;
    }
  }

  lemma {:induction false} GroupsAreWhole(rs: seq<Fastpath.BitmapRect>, max: nat, maxRequest: nat)
    requires max > 0
    ensures Whole(GroupPdus(rs, max, maxRequest))
    decreases |rs|
  {
    if rs != [] {
      hide Whole, Fragments, WriteBitmaps;
      var n := Min(max, |rs|);
      NotEmpty(rs[..n]);
      UpdateIsWhole(UPDATE_CODE_BITMAP, WriteBitmaps(rs[..n]), maxRequest);
      GroupsAreWhole(rs[n..], max, maxRequest);
      WholeAppend(UpdatePdus(UPDATE_CODE_BITMAP, WriteBitmaps(rs[..n]), maxRequest), GroupPdus(rs[n..], max, maxRequest));
    }
  }

  lemma UpdateIsWhole(code: byte, body: seq<byte>, maxRequest: nat)
    requires body != [] && code < 16
    ensures Whole(UpdatePdus(code, body, maxRequest)) && UpdatePdus(code, body, maxRequest) != []
  {
    hide Fragments;
    FragmentsChained(code, body, ChunkSize(maxRequest), true);
    FragmentsSmall(code, body, ChunkSize(maxRequest), true);
  }

  lemma MarkerIsSingle(action: u16, maxRequest: nat)
    requires maxRequest >= MAX_CHUNK
    ensures var pdus := UpdatePdus(UPDATE_CODE_SURFACE_COMMANDS, Marker(action), maxRequest);
            |pdus| == 1 && pdus[0].fragmentation.Single? && Whole(pdus)
  {
    assert |Marker(action)| == 8;
    UpdateIsWhole(UPDATE_CODE_SURFACE_COMMANDS, Marker(action), maxRequest);
  }

  /** A send begins and ends with a PDU that is an update of its own. */
  ghost predicate Send(pdus: seq<Pdu>) {
    Whole(pdus) && pdus != [] && pdus[0].fragmentation.Single? && pdus[|pdus| - 1].fragmentation.Single?
  }

  lemma SendAppend(a: seq<Pdu>, b: seq<Pdu>)
    requires Send(a) && Send(b)
    ensures Send(a + b)
  {
    hide Whole;
    WholeAppend(a, b);
  }

  lemma SendIsChained(rs: seq<Fastpath.BitmapRect>, offered: Option<u32>, compat: bool)
    ensures Send(SendPdus(rs, offered, compat)) && Framed(SendPdus(rs, offered, compat))
  {
    hide UpdatePdus, GroupPdus, Marker, MaxRects, MaxRequest;
    var limit := MaxRequest(offered);
    var max := MaxRects(limit, compat);
    var begin := UpdatePdus(UPDATE_CODE_SURFACE_COMMANDS, Marker(FRAME_ACTION_BEGIN), limit);
    var end := UpdatePdus(UPDATE_CODE_SURFACE_COMMANDS, Marker(FRAME_ACTION_END), limit);
    var groups := GroupPdus(rs, max, limit);
    MarkerIsSingle(FRAME_ACTION_BEGIN, limit);
    MarkerIsSingle(FRAME_ACTION_END, limit);
    GroupsAreWhole(rs, max, limit);
    WholeAppend(begin, groups);
    WholeAppend(begin + groups, end);
  }

  // ------------------------------------------------------------------
  // Two senders on one connection
  // ------------------------------------------------------------------

  /** A client that lost its unfinished update makes all the same rectangles but those of that update. */
  lemma {:induction false} Forgetting(partial: Option<seq<byte>>, pdus: seq<Pdu>) returns (lost: seq<Fastpath.BitmapRect>)
    ensures Makes(partial, pdus) == lost + Makes(None, pdus)
    ensures pdus == [] || !Mid(pdus[0]) ==> lost == []
    decreases |pdus|
  {
    hide Makes, Leaves;
    if pdus == [] {
      MakesNothing(partial);
      MakesNothing(None);
      lost := [];
    } else {
      MakesFirst(partial, pdus);
      MakesFirst(None, pdus);
      OnePdu(partial, pdus[0]);
      OnePdu(None, pdus[0]);
      if pdus[0].fragmentation.Next? {
        lost := Forgetting(Leaves(partial, [pdus[0]]), pdus[1..]);
      } else {
        lost := if pdus[0].fragmentation.Last? then Makes(partial, [pdus[0]]) else [];
      }
    }
  }

  lemma OnePdu(partial: Option<seq<byte>>, p: Pdu)
    ensures p.fragmentation.Next? || p.fragmentation.First? ==> Makes(partial, [p]) == []
    ensures p.fragmentation.Last? && partial.None? ==> Makes(partial, [p]) == []
    ensures Ends(p) ==> Leaves(partial, [p]) == None
    ensures p.fragmentation.Next? && partial.None? ==> Leaves(partial, [p]) == None
    ensures p.fragmentation.Single? ==> Makes(partial, [p]) == Makes(None, [p])
    ensures p.fragmentation.First? ==> Leaves(partial, [p]) == Leaves(None, [p])
  {
    hide RectsOf;
    assert [p][1..] == [];
    var c, n := Client(partial, []), Client(None, []);
    assert OnPdus(c, [p]) == OnPdus(OnPdu(c, p), []) == OnPdu(c, p);
    assert OnPdus(n, [p]) == OnPdus(OnPdu(n, p), []) == OnPdu(n, p);
    assert Received([]) == [];
  }

  /** What a client makes of a send that was cut in two by another: the update that the cut goes through is lost. */
  function Spared(pdus: seq<Pdu>, k: nat): seq<Fastpath.BitmapRect>
    requires k <= |pdus|
  {
    Makes(None, pdus[..k]) + Makes(None, pdus[k..])
  }

  /** A whole send in the midst of another arrives, and takes one update of that with it unless it falls between two. */
  lemma CutThrough(partial: Option<seq<byte>>, pdus: seq<Pdu>, k: nat, other: seq<Pdu>)
    requires Send(pdus) && Send(other) && k <= |pdus|
    ensures Makes(partial, pdus[..k] + other + pdus[k..])
         == Makes(None, pdus[..k]) + Makes(None, other) + Makes(None, pdus[k..])
    ensures k == |pdus| || !Mid(pdus[k]) ==> Spared(pdus, k) == Makes(None, pdus)
  {
    hide Makes, Leaves;
    var front, back := pdus[..k], pdus[k..];
    MakesAppend(partial, front + other, back);
    MakesAppend(partial, front, other);
    Anew(partial, front);
    Anew(Leaves(partial, front), other);
    LeavesNothing(Leaves(partial, front), other);
    assert front + back == pdus;
    MakesAppend(None, front, back);
    var lost := Forgetting(Leaves(None, front), back);
    assert [] + Makes(None, back) == Makes(None, back);
  }

  /** A send makes the same whatever was unfinished before it. */
  lemma Anew(partial: Option<seq<byte>>, pdus: seq<Pdu>)
    requires pdus == [] || !Mid(pdus[0])
    ensures Makes(partial, pdus) == Makes(None, pdus)
  {
    hide Makes;
    var lost := Forgetting(partial, pdus);
    assert [] + Makes(None, pdus) == Makes(None, pdus);
  }

  lemma LeavesNothing(partial: Option<seq<byte>>, pdus: seq<Pdu>)
    requires pdus != [] && pdus[|pdus| - 1].fragmentation.Single?
    ensures Leaves(partial, pdus) == None
  {
    hide Makes, Leaves;
    var n := |pdus| - 1;
    assert pdus[..n] + [pdus[n]] == pdus;
    MakesAppend(partial, pdus[..n], [pdus[n]]);
    OnePdu(Leaves(partial, pdus[..n]), pdus[n]);
  }

  /** Cut anywhere inside, a send of one bitmap update that takes more than one frame loses all of it. */
  lemma CutLosesAll(rs: seq<Fastpath.BitmapRect>, offered: Option<u32>, compat: bool, k: nat)
    requires 0 < |rs| <= MaxRects(MaxRequest(offered), compat)
    requires 1 < k < |SendPdus(rs, offered, compat)| - 1
    ensures Spared(SendPdus(rs, offered, compat), k) == []
  {
    hide Makes, Leaves, Fragments, WriteBitmaps, Marker, MaxRects, MaxRequest;
    var limit := MaxRequest(offered);
    var begin := UpdatePdus(UPDATE_CODE_SURFACE_COMMANDS, Marker(FRAME_ACTION_BEGIN), limit);
    var end := UpdatePdus(UPDATE_CODE_SURFACE_COMMANDS, Marker(FRAME_ACTION_END), limit);
    var max := MaxRects(limit, compat);
    MarkerIsSingle(FRAME_ACTION_BEGIN, limit);
    MarkerIsSingle(FRAME_ACTION_END, limit);
    var body := WriteBitmaps(rs[..|rs|]);
    var update := UpdatePdus(UPDATE_CODE_BITMAP, body, limit);
    assert GroupPdus(rs, max, limit) == update by {
      assert rs[|rs|..] == [] && GroupPdus([], max, limit) == [];
      assert update + [] == update;
    }
    var pdus := begin + update + end;
    assert SendPdus(rs, offered, compat) == pdus;
    NotEmpty(rs[..|rs|]);
    FragmentsChained(UPDATE_CODE_BITMAP, body, ChunkSize(limit), true);
    var front, back := update[..k - 1], update[k - 1..];
    assert pdus[..k] == begin + front && pdus[k..] == back + end;
    MarkerMakes(None, FRAME_ACTION_BEGIN, limit);
    MakesAppend(None, begin, front);
    NeverEnds(None, front);
    MakesAppend(None, back, end);
    OnlyContinues(back);
    MarkerMakes(Leaves(None, back), FRAME_ACTION_END, limit);
  }

  lemma {:induction false} NeverEnds(partial: Option<seq<byte>>, pdus: seq<Pdu>)
    requires forall i :: 0 <= i < |pdus| ==> !Ends(pdus[i])
    ensures Makes(partial, pdus) == []
    decreases |pdus|
  {
    hide Makes, Leaves;
    if pdus == [] {
      MakesNothing(partial);
    } else {
      MakesFirst(partial, pdus);
      assert !Ends(pdus[0]);
      OnePdu(partial, pdus[0]);
      NeverEnds(Leaves(partial, [pdus[0]]), pdus[1..]);
    }
  }

  lemma {:induction false} OnlyContinues(pdus: seq<Pdu>)
    requires forall i :: 0 <= i < |pdus| ==> Mid(pdus[i])
    ensures Makes(None, pdus) == [] && Leaves(None, pdus) == None
    decreases |pdus|
  {
    hide Makes, Leaves;
    if pdus == [] {
      MakesNothing(None);
    } else {
      MakesFirst(None, pdus);
      assert Mid(pdus[0]);
      OnePdu(None, pdus[0]);
      OnlyContinues(pdus[1..]);
    }
  }
}
