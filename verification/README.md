# kmsrdp protocol cores in Dafny

kmsrdp is an RDP server stack whose protocol code performs no I/O of its own. This project models its hard parts
and proves what they are for, on every input, every run or every reachable state.

From desktop to client (`DirtyRects`, `Display`, `DisplayHub`, `BitmapSync`, `Session`, `SessionRuns`,
`SessionProgress`, `Rdp6`, `Fastpath`, `FastpathOutput`, `Tiling`). The frame diff, the merge of a tick's dirty
rectangles, the broadcast ring with lag and resync, the session's resync against the frame it last confirmed, the
tiling of an update, the RDP 6.0 planar codec, the rectangle format, grouping, frame markers and fast-path
fragmentation are each proved, and composed in `Session`, where both sends hand single PDUs to one queue: what a
settled client shows, for every interleaving, and exactly when that is the captured desktop
(`Session.ClientShowsDesktopIff`). Every session can settle (`SessionProgress.EveryRunSettles`). The ways to settle on
another picture are given as runs with their exact conditions: a direct send that the confirmed frame does not know of
(`SessionRuns.StrandedIff`), one that cuts an update of the background send in two (`SessionRuns.TornIff`), one that
is given up (`SessionRuns.GivenUpIff`), and a first frame between the two halves of a subscription
(`SessionRuns.RaceLeavesBlank`). `Session.CalmClientShowsDesktop` says what a run has to avoid.

Channels (`X224`, `Per`, `Mcs`, `Svc`, `DvcPdu`, `DvcMux`). Dynamic-channel payloads cross four nested framings;
`DvcMux.PayloadArrives` is the round trip through all of them, `DvcMux.RunKeeps` what every multiplexer state keeps.

Sessions (`Connector`, `ConnectorRuns`, `Rdpdr`). The connection sequence with resize, and the table of outstanding
drive requests with its work queue of callbacks, both over arbitrary calls.

Codecs (`NsCodec`, `H264`, `Yuv`, `Utf16`, `Clipboard`, `Pacing`). Run-length planes, Exp-Golomb parameter sets, the
fused colour conversion, clipboard text and the PCM pacing rule.

## How it is modelled

- Logic that computes is a function on byte sequences; what the source does in place is a class or an array method
  proved equal to that function, so every theorem about the function is one about the method.
- A callback into code outside the model (a drive consumer, a dynamic-channel handler, the decoders of flat
  structures) is a function value about which nothing is assumed. Only where a whole message is one step does a drive
  consumer have a follow-up measure, without which the work queue need not end (`Rdpdr.QueueNeverEmpties`).
- Concurrency is interleaving at locks and awaits: capture, subscription, session loop, background send and network are
  separate actions in `Session`. Clocks, captures, kernel backlog and sockets are parameters.
- What the hub broadcasts only wakes a session, which sends the difference between the frame it confirmed and the
  latest. `DisplayHub` is the hub's own promise, to a subscriber that paints what it receives.
- Lengths and counters have the width of the source wherever that can be felt: 16-bit lengths and tile positions,
  15-bit PER lengths, 32-bit request and channel ids, 64-bit saturating sums.

## Where the code and its description part

- `read_length` recovers only lengths below 0x8000, so a Send Data PDU of 32 KiB or more is not read back.
- The planar tile loops step a 16-bit position; above 65472 pixels it wraps. A raw strip of one row exceeds the
  16-bit length above 16383 pixels.
- The source says that trailing noise after an accept is harmless. The loop ends on the accept before it could see
  any, and noise after an earlier request discards the replies already built while the state stays advanced.
- A Data First PDU that completes in itself leaves an older partial message in its slot, and a one-PDU message is
  then taken for its continuation.
- A completion for the wrong device consumes the request without a callback.
- A client that resumes output is sent the latest frame, but the frame the session compares with stays the old one: if
  the desktop returns to that, the session finds nothing to send and the client keeps the frame in between.
- Direct and background sends share one queue frame by frame. The source holds that its resync heals an update that was
  interrupted; but the confirmed frame has advanced by then, so the next comparison finds nothing to send.
- A direct send that times out is given up without a trace, and nothing sends the rest later.

## Model

| member | source | states |
|---|---|---|
| `Session.ClientShowsDesktopIff` | crates/rdpcore-server/src/server/session_loop.rs:596-842 | for every interleaving of captures, broadcasts, both halves of the subscription, wake-ups, lags, finished background sends, timers, suppress and refresh requests, hand-overs of single PDUs by both sends, direct sends given up, and arrivals: a settled client (updates wanted, none owed, everything sent arrived) shows at each position the last update completed there, or what it showed at first, hence the desktop exactly if the colours agree; they do where the confirmed frame was last and was not behind when output was resumed; nothing was ever completed at a position only if the session missed the wake-up for the latest frame, and then no resync was ever sent |
| `Session.CalmClientShowsDesktop` | crates/rdpcore-server/src/server/slow_path.rs:53-107 | if every direct send is made while no background send is under way and the confirmed frame agrees with the latest, and is given up only if a frame is confirmed, a settled client shows the captured desktop everywhere, unless the wake-up was missed and nothing was ever sent |
| `SessionRuns.ResumeHarmlessIff` | crates/rdpcore-server/src/server/slow_path.rs:53-71 | from any session with output suppressed and nothing on its way: after output is resumed and the desktop returns to the confirmed frame, the settled client shows the desktop at a position exactly if the confirmed frame and the one in between agree in colour there |
| `SessionRuns.StrandedIff` | crates/rdpcore-server/src/server/slow_path.rs:53-71 | the whole run from the start, for any two frames: sent the first, suppressed, the second captured, resumed, the first captured again; with nothing left to send, the client shows the desktop exactly where the two frames agree in colour |
| `SessionRuns.TornIff` | crates/rdpcore-server/src/server/frame_pump.rs:99-206 | the whole run from the start, for any two frames, any refresh request and any point of the background send at which it comes: with nothing left to send, the client shows the desktop exactly where the refresh sent something, an update that was not cut through reaches, or the frames agree in colour |
| `SessionRuns.TornThroughIff` | crates/rdpcore-server/src/server/frame_pump.rs:99-206 | where the difference is one bitmap update of several frames, cut through anywhere, only the refresh is shown |
| `SessionRuns.GivenUpIff` | crates/rdpcore-server/src/server/slow_path.rs:53-71 | a client that resumes output and whose direct send times out at once settles, and shows the desktop exactly where the confirmed frame and the latest agree in colour |
| `SessionProgress.EveryRunSettles` | crates/rdpcore-server/src/server/session_loop.rs:596-641 | from every reachable state with output allowed, the gate open and a frame captured, some finite sequence of broadcasts, wake-ups, joins, timer ticks, hand-overs and arrivals, with no capture, request or backlog, settles the session |
| `SessionProgress.ReadAll` | crates/rdpcore-server/src/server/session_loop.rs:642-676 | wake-ups alone bring it to the end of the channel |
| `SessionProgress.Flushes` | crates/rdpcore-server/src/server/session_loop.rs:596-641 | finished sends and the timer alone leave nothing pending |
| `SessionRuns.RaceLeavesBlank` | kmsrdp/src/display_hub.rs:76-82 | the first frame captured and broadcast between the two halves of the subscription: the session settles and its client goes on showing whatever it showed |
| `Session.RunKeeps` | crates/rdpcore-server/src/server/session_loop.rs:596-842 | the invariant behind these holds in every reachable state: what is on its way brings the client to what was completed at the writer, what the background send has ahead paints the confirmed frame, each position stands as its mark says, and with nothing owed the confirmed frame is the latest but for what was behind at a resume |
| `Session.StepKeeps` | crates/rdpcore-server/src/server/session_loop.rs:596-842 | each of the fourteen steps keeps that invariant |
| `Session.CatchUpKeeps` | crates/rdpcore-server/src/server/session_loop.rs:752-842 | catching up, deferred, found empty, queued or not, keeps it |
| `Session.HandDirectPixel` | crates/rdpcore-server/src/server/frame_pump.rs:134-206 | so does handing over one direct PDU, in the midst of a background update or not, at every pixel |
| `Session.HandBulkPixel` | crates/rdpcore-server/src/server/frame_pump.rs:134-206 | and one PDU of the background send, whose update may have been broken before |
| `Session.SettledIsAgreed` | crates/rdpcore-server/src/server/slow_path.rs:72-107 | with nothing owed and nothing behind, the confirmed frame agrees with the latest, so a refresh is harmless |
| `BitmapSync.ResyncCovers` | crates/rdpcore-server/src/encode.rs:419-459 | a resync is a view of the current frame over every pixel in which it differs from the confirmed one, all of it if none of that geometry is confirmed; there is nothing to send exactly if the two show the same picture |
| `BitmapSync.ResyncBitmap` | crates/rdpcore-server/src/encode.rs:419-459 | the comparison and the fold of its rectangles compute that resync |
| `BitmapSync.BitmapSyncState.Take` | crates/rdpcore-server/src/server/bitmap_sync.rs:70-106 | consumes the pending flag, and arms the target only with an update to send |
| `FastpathOutput.SendArrivesIff` | crates/rdpcore-server/src/encode.rs:174-182 | for every request size a client offers: however the rectangles are grouped and the updates cut into frames, between two frame markers, a client that puts them together has all of them, in order, exactly if every data length fits 16 bits |
| `FastpathOutput.UpdateReassembles` | crates/rdpcore-server/src/encode.rs:322-354 | the frames of an update of any size give the client exactly that update, whatever it had of another |
| `FastpathOutput.CutThrough` | crates/rdpcore-server/src/server/frame_pump.rs:99-206 | a whole send, frame markers included, in the midst of another arrives; of the other, all arrives but the update the cut goes through, and all of it if the cut falls between two |
| `FastpathOutput.CutLosesAll` | crates/rdpcore-server/src/server/frame_pump.rs:99-206 | a send of one bitmap update that takes more than one frame, cut anywhere inside, loses all its rectangles |
| `FastpathOutput.BitmapsRoundTripIff` | crates/rdpcore-pdu/src/fastpath.rs:450-497 | a bitmap update reads back exactly if its count and every data length fit 16 bits |
| `FastpathOutput.FrameReads` | crates/rdpcore-pdu/src/fastpath.rs:125-312 | a frame of one update PDU reads back, with either width of its length |
| `Tiling.UpdateDelivered` | crates/rdpcore-server/src/encode.rs:111-182 | an update of a size the encoder can send, cut into rectangles, grouped, framed, received, put together, decoded and drawn, shows its own pixels over its own area and leaves every other pixel alone |
| `Tiling.ArrivesIff` | crates/rdpcore-server/src/encode.rs:111-182 | the rectangles that arrive are those that were sent exactly if the tile loops end and, for a raw client, a row of pixels fits one strip |
| `Tiling.UpdateShows` | crates/rdpcore-server/src/encode.rs:128-172 | before the wire: some rectangle paints a position exactly if the update shows it, and then with its pixel |
| `Tiling.TileShows` | crates/rdpcore-server/src/encode.rs:187-267 | one tile, gathered bottom-up, planar where that is allowed and smaller, shows exactly its own area of the update |
| `Tiling.TilesPartition` | crates/rdpcore-server/src/encode.rs:128-172 | every position of the update is in exactly one tile or strip, none reaches outside, and each planar tile is at most 64 by 64 |
| `Tiling.TileLoopEndsIff` | crates/rdpcore-server/src/encode.rs:129-150 | the 16-bit tile position of the planar loops passes the size exactly when that is at most 65472; beyond, it wraps to 0 and the loop never ends |
| `Tiling.RawStripsSmallIff` | crates/rdpcore-server/src/encode.rs:36-42 | every raw strip fits the 16-bit length field exactly when the update is at most 16383 pixels wide |
| `Tiling.PlanarTilesSmall` | crates/rdpcore-server/src/encode.rs:128-150 | no rectangle of a planar update, compressed or raw, exceeds the 16-bit length field |
| `Tiling.PushBitmapRect` | crates/rdpcore-server/src/encode.rs:187-267 | the tile method appends exactly the specified rectangle, or nothing if a row is not in the buffer |
| `Tiling.PushTileRow` | crates/rdpcore-server/src/encode.rs:131-148 | the inner tile loop emits the tiles of one tile row in order |
| `Tiling.EncodeBitmapUpdate` | crates/rdpcore-server/src/encode.rs:111-172 | both tiling loops emit exactly the specified rectangles, for every size on which they end |
| `DisplayHub.QuiescentShowsScreen` | kmsrdp/src/display_hub.rs:84-327 | in every run, painting the updates a subscriber receives shows the screen once nothing is unread, lag, resync and replay of retained updates included, unless a frame was broadcast while it was attaching and it has not resynced since |
| `DisplayHub.RunKeeps` | kmsrdp/src/display_hub.rs:84-420 | the invariant behind it holds in every reachable state: what is unread brings the canvas to the latest frame, and replaying any suffix over the latest frame leaves it |
| `DisplayHub.StepKeeps` | kmsrdp/src/display_hub.rs:163-327 | each capture, broadcast, half of a subscription, poll and resync keeps that invariant |
| `DisplayHub.TickUpdate` | kmsrdp/src/display_hub.rs:246-327 | the one update of a tick is a view of the new frame over every changed pixel |
| `DisplayHub.AttachCatchesUpIff` | kmsrdp/src/display_hub.rs:76-82 | a subscriber attaching with a stale initial frame, or none, will be brought to the latest frame exactly if the update still in flight shows every pixel in which it lags |
| `DisplayHub.RaceLeavesBlank` | kmsrdp/src/display_hub.rs:76-82 | the first frame broadcast between the two halves leaves a subscriber with nothing to read and nothing painted |
| `DisplayHub.CaptureLoop.OnCapture` | kmsrdp/src/display_hub.rs:208-327 | the loop body publishes the frame and returns the one merged update of the protocol step |
| `DisplayHub.DisplayUpdates.NextUpdate` | kmsrdp/src/display_hub.rs:400-420 | the poll returns the initial frame, the next message or the latest frame after a lag, and advances as the protocol step says |
| `Display.SubOfFull` | crates/rdpcore-server/src/display.rs:73-116 | cutting any rectangle of a valid frame out of its full update succeeds and shows the frame there |
| `Display.UnionOfViews` | crates/rdpcore-server/src/display.rs:119-164 | the union of two views of a frame is a view of it that shows whatever either showed |
| `Display.MergedUpdate` | kmsrdp/src/display_hub.rs:309-324 | merging all dirty rectangles gives a view of the frame over all of them; there is none only for no rectangles |
| `Display.MergeDirtyRects` | kmsrdp/src/display_hub.rs:309-324 | the merge loop computes that merge, skipping what cannot be addressed |
| `Display.CoalesceCovers` | kmsrdp/src/display_hub.rs:353-377 | coalescing loses no dirty pixel, stays in the frame, and neither invents nor drops an update |
| `Display.DiffCoversChanges` | crates/rdpcore-server/src/diff.rs:137-230 | the diff of two valid frames covers every changed pixel and is empty only for the same picture |
| `Display.TakePixels` | kmsrdp/src/capture/pixel_diff.rs:8-36 | the capturer reports rectangles that cover every change, and `same` only for the same picture |
| `DirtyRects.FindDirtyRects` | crates/rdpcore-server/src/diff.rs:137-230 | the rectangles cover exactly the tiles in which the frames differ, lie in the frame and are pairwise disjoint |
| `DirtyRects.DiffIsSound` | crates/rdpcore-server/src/diff.rs:137-230 | every differing pixel is covered, and there are no rectangles exactly if every pixel agrees |
| `DirtyRects.SomeDiff` | crates/rdpcore-server/src/diff.rs:137-230 | any two buffers, of any strides and sizes, have a diff |
| `DirtyRects.VisiblePixelsEqualIff` | crates/rdpcore-server/src/diff.rs:32-62 | the whole-frame comparison, packed or row by row, is true exactly if the visible span of every row agrees |
| `DirtyRects.TileDiffersIff` | crates/rdpcore-server/src/diff.rs:64-86 | a tile differs exactly if some visible pixel of it does, or is missing from a buffer |
| `DirtyRects.SmallBitSet.Get` | crates/rdpcore-server/src/diff.rs:110-119 | reads the bit of the index from the inline words or the overflow words |
| `DirtyRects.SmallBitSet.Set` | crates/rdpcore-server/src/diff.rs:121-134 | changes exactly that bit |
| `DirtyRects.GrowBlock` | crates/rdpcore-server/src/diff.rs:186-202 | the block grown from a dirty tile is all dirty and as large as the greedy rule allows |
| `DirtyRects.ClearBlock` | crates/rdpcore-server/src/diff.rs:222-226 | clears exactly the tiles of the block |
| `DirtyRects.TakeBlock` | crates/rdpcore-server/src/diff.rs:186-227 | takes one block out of the dirty set: taken blocks stay disjoint and, with what is left, make up the tiles marked at first |
| `DirtyRects.MergeTiles` | crates/rdpcore-server/src/diff.rs:177-229 | the blocks are disjoint and cover exactly the dirty tiles, and are reported in pixels, cut to the frame |
| `DirtyRects.MarkTiles` | crates/rdpcore-server/src/diff.rs:158-175 | the marked tiles are exactly those that differ |
| `Rdp6.TileRoundTrip` | crates/rdpcore-pdu/src/rdp6.rs:33-122 | decoding an encoded tile gives it back with every X byte zero, for every width, height and buffer |
| `Rdp6.TileSize` | crates/rdpcore-pdu/src/rdp6.rs:33-86 | the stream is at most 1 + 3 h (w + ceil(w / 15)) bytes |
| `Rdp6.ScanlineRoundTrip` | crates/rdpcore-pdu/src/rdp6.rs:248-341 | a scanline code decodes to the scanline and leaves exactly the bytes after it |
| `Rdp6.ScanlineShape` | crates/rdpcore-pdu/src/rdp6.rs:215-293 | the code of a scanline is within its size bound, reaches it for a line without repeats, and uses only run fields 0 and 3 to 15, never a zero control byte |
| `Rdp6.DecodeEncodeTail` | crates/rdpcore-pdu/src/rdp6.rs:248-293 | the same at any point of the line, with literals still pending |
| `Rdp6.ZigzagBitsRoundTrip` | crates/rdpcore-pdu/src/rdp6.rs:129-139 | the bitwise zigzag and its inverse undo each other |
| `Rdp6.ZigzagRoundTrip` | crates/rdpcore-pdu/src/rdp6.rs:129-139 | the arithmetic zigzag of the model does too |
| `Rdp6.UndeltaDelta` | crates/rdpcore-pdu/src/rdp6.rs:141-193 | the vertical delta is undone by its inverse, wrap-around included |
| `Rdp6.DeltaUndelta` | crates/rdpcore-pdu/src/rdp6.rs:141-193 | and the other way round: every delta plane is the delta of what it restores |
| `Rdp6.RowsRoundTrip` | crates/rdpcore-pdu/src/rdp6.rs:141-193 | all rows of a plane come back in order, with exactly the following bytes left |
| `Rdp6.PlaneRoundTrip` | crates/rdpcore-pdu/src/rdp6.rs:141-193 | one plane through delta, zigzag and RLE and back |
| `Rdp6.RowsSize` | crates/rdpcore-pdu/src/rdp6.rs:141-169 | the rows of a plane are within h times the scanline bound |
| `Rdp6.LiteralBuf.Push` | crates/rdpcore-pdu/src/rdp6.rs:230-237 | appends a literal, first flushing a full buffer |
| `Rdp6.LiteralBuf.Flush` | crates/rdpcore-pdu/src/rdp6.rs:239-245 | emits the pending literals as one segment |
| `Rdp6.EmitRun` | crates/rdpcore-pdu/src/rdp6.rs:273-293 | the run loop emits the specified run and continuation segments |
| `Rdp6.EncodeScanlineRle` | crates/rdpcore-pdu/src/rdp6.rs:248-271 | the scanline loop emits the specified code |
| `Rdp6.FilterPlane` | crates/rdpcore-pdu/src/rdp6.rs:142-150 | the filter loop writes the zigzagged vertical delta into the buffer |
| `Rdp6.EncodeDeltaRows` | crates/rdpcore-pdu/src/rdp6.rs:151-153 | the row loop emits the code of every row |
| `Rdp6.EncodePlaneStack` | crates/rdpcore-pdu/src/rdp6.rs:141-154 | the small-tile path emits the specified plane code |
| `Rdp6.EncodePlaneHeap` | crates/rdpcore-pdu/src/rdp6.rs:156-169 | the large-tile path emits the same bytes |
| `Rdp6.SplitPlanes` | crates/rdpcore-pdu/src/rdp6.rs:47-81 | the component loop splits the pixels into three planes |
| `Rdp6.EncodeTo` | crates/rdpcore-pdu/src/rdp6.rs:33-86 | the encoder emits the specified stream |
| `Rdp6.DecodeSegment` | crates/rdpcore-pdu/src/rdp6.rs:295-341 | one segment fills exactly its samples or fails as specified |
| `Rdp6.DecodeScanlineRle` | crates/rdpcore-pdu/src/rdp6.rs:295-341 | the in-place scanline decoder agrees with the specification on every input, errors included |
| `Rdp6.DecodeDeltaRows` | crates/rdpcore-pdu/src/rdp6.rs:179-182 | the in-place row loop does |
| `Rdp6.UnfilterPlane` | crates/rdpcore-pdu/src/rdp6.rs:183-192 | the in-place inverse delta restores the plane |
| `Rdp6.DecodePlaneFrom` | crates/rdpcore-pdu/src/rdp6.rs:171-193 | one plane off the cursor |
| `Rdp6.DecodeTile` | crates/rdpcore-pdu/src/rdp6.rs:96-122 | the decoder agrees with the specification on every input |
| `Rdp6.JoinPlanes` | crates/rdpcore-pdu/src/rdp6.rs:109-121 | the join loop interleaves the planes with a zero X byte |
| `Fastpath.RectRoundTripIff` | crates/rdpcore-pdu/src/fastpath.rs:354-446 | a bitmap rectangle reads back, the bytes after it untouched, exactly when its data length fits 16 bits |
| `Fastpath.RectReads` | crates/rdpcore-pdu/src/fastpath.rs:354-446 | a longer one reads back cut to its length modulo 65536 |
| `Fastpath.PlanarTileFits` | crates/rdpcore-pdu/src/fastpath.rs:363-385 | a planar 64 by 64 tile is at most 13249 bytes, so neither length field is cut |
| `Rdpdr.EveryCommandAccounted` | crates/rdpcore-rdpdr/src/lib.rs:338-607 | at every turn of every run, for every consumer, each submitted command is queued and unsent; pending, and sent exactly once under its id; answered by exactly one callback of its own kind and tag, sent once or, at the cap, never; consumed by a mismatched completion; or, only once more than 2^32 requests were issued, overwritten by a reused id |
| `Rdpdr.MismatchesAreMisdirected` | crates/rdpcore-rdpdr/src/lib.rs:338-356 | a command counted as mismatched was consumed by a completion of the run that names its id and another device |
| `Rdpdr.MessageHandled` | crates/rdpcore-rdpdr/src/lib.rs:275-607 | for a consumer with a follow-up measure the turns of a message end, and add up to its whole effect |
| `Rdpdr.RunKeeps` | crates/rdpcore-rdpdr/src/lib.rs:203-607 | the books balance at every turn, for every consumer |
| `Rdpdr.CapsHold` | crates/rdpcore-rdpdr/src/lib.rs:275-607 | at most 4096 requests are pending and at most 256 devices registered at every turn, in the middle of a queue too, whatever follow-ups the consumer returns |
| `Rdpdr.RequestsHaveOwners` | crates/rdpcore-rdpdr/src/lib.rs:487-607 | every pending id belongs to exactly one command |
| `Rdpdr.IssueOverwritesIff` | crates/rdpcore-rdpdr/src/lib.rs:510-604 | issuing a request loses another exactly if the 32-bit id counter has come round to one still pending |
| `Rdpdr.RemoveAnswersStale` | crates/rdpcore-rdpdr/src/lib.rs:308-337 | for every consumer, once the channel is done with the message and while at most 2^32 requests have been issued: removing devices has answered every request pending on them exactly once, with failure, and left every other request in place, whatever follow-ups the consumer returned |
| `Rdpdr.AdvancesStand` | crates/rdpcore-rdpdr/src/lib.rs:308-337 | after any number of turns in between, each such request is untouched and still listed, or failed back |
| `Rdpdr.CallbacksMatch` | crates/rdpcore-rdpdr/src/lib.rs:361-485 | completions and synthetic failures call back the kind and tag of the command |
| `Rdpdr.DrainKeeps` | crates/rdpcore-rdpdr/src/lib.rs:487-607 | draining the work queue keeps the books; it ends by the consumer follow-up measure and the queue length |
| `Rdpdr.QueueNeverEmpties` | crates/rdpcore-rdpdr/src/lib.rs:487-607 | without such a measure it need not end: at the cap, a consumer that answers every failure with more commands keeps the queue non-empty after any number of turns |
| `Rdpdr.RdpdrChannel.Turn` | crates/rdpcore-rdpdr/src/lib.rs:487-607 | one turn of the work loop is the specified queue step |
| `Rdpdr.RdpdrChannel.EncodeCommands` | crates/rdpcore-rdpdr/src/lib.rs:487-607 | the work loop drains the queue as specified and returns exactly the packets it sent, in order |
| `Rdpdr.RdpdrChannel.OnDeviceIoCompletion` | crates/rdpcore-rdpdr/src/lib.rs:338-356 | a completion answers its request; one for another device removes it unanswered; the packets returned are those sent |
| `Rdpdr.RdpdrChannel.OnDeviceListRemove` | crates/rdpcore-rdpdr/src/lib.rs:308-337 | removes the devices and answers their requests, in the order the table yields them; the packets returned are those sent |
| `Rdpdr.RdpdrChannel.ListStale` | crates/rdpcore-rdpdr/src/lib.rs:319-324 | lists each stale request once |
| `Rdpdr.RdpdrChannel.AcceptDevice` | crates/rdpcore-rdpdr/src/lib.rs:276-305 | one announced device: registered within the cap if its type is supported; its reply, then the requests of its consumer |
| `Rdpdr.RdpdrChannel.OnDeviceListAnnounce` | crates/rdpcore-rdpdr/src/lib.rs:275-307 | accepts each supported device within the cap, and returns every reply and request in order |
| `X224.UnwrapWrap` | crates/rdpcore-pdu/src/x224.rs:254-276 | unwrapping a wrapped payload gives it back, at every length |
| `Per.LengthRoundTripIff` | crates/rdpcore-pdu/src/per.rs:14-29 | a PER length reads back exactly below 0x8000 |
| `Per.LongLength` | crates/rdpcore-pdu/src/per.rs:14-29 | a longer one reads back as its low fifteen bits |
| `Per.U16RoundTrip` | crates/rdpcore-pdu/src/per.rs:90-97 | offset 16-bit values read back for every value and minimum |
| `Mcs.SendDataRoundTripIff` | crates/rdpcore-pdu/src/mcs.rs:425-457 | a Send Data PDU reads back, marked complete and with the bytes after it untouched, exactly below 32 KiB |
| `Mcs.SendDataReads` | crates/rdpcore-pdu/src/mcs.rs:425-457 | what is read back at every length |
| `Svc.ChunkifyReassembles` | crates/rdpcore-pdu/src/svc.rs:54-133 | the chunks of any message within the cap reassemble to it, exactly once, whatever was buffered before |
| `Svc.MessageIsSinceFirst` | crates/rdpcore-pdu/src/svc.rs:108-133 | over every chunk stream, a returned message is the concatenation of all bodies since the most recent FIRST chunk |
| `Svc.BufferIsSinceFirst` | crates/rdpcore-pdu/src/svc.rs:108-133 | and the buffer never exceeds the cap and, unless empty, is that concatenation |
| `Svc.ChunkSizes` | crates/rdpcore-pdu/src/svc.rs:54-89 | every chunk is at most 1600 bytes and its header |
| `Svc.UnwrapWrapChunk` | crates/rdpcore-pdu/src/svc.rs:35-52 | a chunk wrapped in MCS and X.224 comes back |
| `Svc.Reassembly.Reassemble` | crates/rdpcore-pdu/src/svc.rs:108-133 | the in-place reassembly is the specified step |
| `DvcPdu.VariableRoundTrip` | crates/rdpcore-dvc/src/pdu.rs:35-64 | every 32-bit value reads back from its variable-width field |
| `DvcPdu.DataRoundTrip` | crates/rdpcore-dvc/src/pdu.rs:95-102 | a Data PDU decodes to its channel and bytes |
| `DvcPdu.DataFirstRoundTrip` | crates/rdpcore-dvc/src/pdu.rs:104-116 | a Data First PDU decodes to its channel, total and bytes |
| `DvcPdu.PdusFit` | crates/rdpcore-dvc/src/pdu.rs:118-129 | every PDU of a payload fits one 1600-byte chunk |
| `DvcMux.PayloadArrives` | crates/rdpcore-dvc/src/lib.rs:118-243 | a payload of up to 16 MiB, sent on any channel id through fragmentation, chunking, MCS and X.224, reaches its slot exactly once, exactly as sent, with nothing left buffered |
| `DvcMux.PayloadArrivesIff` | crates/rdpcore-dvc/src/lib.rs:172-235 | its bytes are handed to the channel once, as they were sent, exactly if the slot holds no partial message, the payload takes more than one PDU, or it happens to complete that message to itself |
| `DvcMux.ComesOutIff` | crates/rdpcore-dvc/src/lib.rs:172-235 | the last happens exactly if the payload has the announced length, begins with what is buffered, and is periodic by that length |
| `DvcMux.RunKeeps` | crates/rdpcore-dvc/src/lib.rs:91-235 | in every reachable state: slot ids distinct and below the next id while that has not wrapped; partial messages shorter than their declared total, itself at most 16 MiB; queued handlers only before negotiation and slots only after; every handler opened once, in order; fragmented deliveries of the declared length |
| `DvcMux.ContinuationPackets` | crates/rdpcore-dvc/src/lib.rs:172-235 | continuation PDUs complete exactly the announced message |
| `DvcMux.CollectOk` | crates/rdpcore-dvc/src/lib.rs:172-235 | collecting keeps the partial-message bounds |
| `DvcMux.Multiplexer.OnCapabilityResponse` | crates/rdpcore-dvc/src/lib.rs:130-138 | the loop opens the queued handlers in order |
| `DvcMux.Multiplexer.HandleIncomingData` | crates/rdpcore-dvc/src/lib.rs:172-235 | updates the slot in place as specified, errors included |
| `DvcMux.Multiplexer.OnClientMessage` | crates/rdpcore-dvc/src/lib.rs:129-170 | dispatches every message as specified |
| `DvcMux.Multiplexer.OnChunk` | crates/rdpcore-dvc/src/lib.rs:118-170 | one chunk of the static channel is the specified step and keeps the invariant |
| `ConnectorRuns.EveryAcceptanceIsEarned` | crates/rdpcore-connector/src/lib.rs:242-407 | over every run on arbitrary bytes each reported connection had an approval, then since the last approval or resize a complete Confirm Active and, last, a Font List; it carries the last requested desktop size, what that Confirm Active negotiated, and the channel ids of the one Connect Response |
| `ConnectorRuns.RunKeeps` | crates/rdpcore-connector/src/lib.rs:182-815 | the invariant behind this and the next rows holds in every reachable state |
| `ConnectorRuns.OpeningInOrder` | crates/rdpcore-connector/src/lib.rs:463-623 | in every reachable state but the rejected one NLA is selected exactly if the client offers it and nothing less where it is required, and what the server has sent, joins aside, is the opening of the phase in order |
| `ConnectorRuns.RejectedIsAbsorbing` | crates/rdpcore-connector/src/lib.rs:312-329 | no calls move a rejected acceptor or make it send |
| `ConnectorRuns.AcceptedNeverRejected` | crates/rdpcore-connector/src/lib.rs:271-407 | once approved, hence once accepted, no calls reach the rejected state |
| `ConnectorRuns.ConfirmBufferBounded` | crates/rdpcore-connector/src/lib.rs:677-712 | the Confirm Active buffer is at most 1 MiB and empty outside its phase |
| `ConnectorRuns.JoinsConfirmed` | crates/rdpcore-connector/src/lib.rs:546-594 | by client-info exactly 2 + n (+ 1 with a message channel) join confirms have been sent, however batched |
| `ConnectorRuns.ChannelIdsDistinct` | crates/rdpcore-connector/src/lib.rs:494-521 | from the offer on, in every reachable state, user, I/O, static and message channel ids are pairwise distinct |
| `ConnectorRuns.RepliesSentIff` | crates/rdpcore-connector/src/lib.rs:367-407 | since the last Demand Active the replies are built in the prescribed order, and have all been sent exactly if no failed call discarded one |
| `ConnectorRuns.LosesRepliesIff` | crates/rdpcore-connector/src/lib.rs:377-389 | a call discards replies exactly if its payload ends in bytes that are no request, no request before them is a Font List that counts, and one completes Confirm Active or, in finalization, is the first to ask for control |
| `ConnectorRuns.AcceptedWithoutSynchronize` | crates/rdpcore-connector/src/lib.rs:377-407 | however a run came to await Confirm Active: the request that completes it with any stray byte behind it, then a Font List, and the connection is accepted although Synchronize and Cooperate never went out |
| `ConnectorRuns.RepliesCanBeLost` | crates/rdpcore-connector/src/lib.rs:377-407 | the same as one run from the start, for any decoders and any packets they take |
| `Connector.BatchingIsInvisible` | crates/rdpcore-connector/src/lib.rs:367-453 | one step on any number of packed payloads has the state, replies and result of a step on each, up to the accept or the last join, even if the last one fails |
| `Connector.BatchOfTwo` | crates/rdpcore-connector/src/lib.rs:367-453 | the same for two, with the rest of a batch dropped once its phase has ended |
| `Connector.DomainBatch` | crates/rdpcore-connector/src/lib.rs:412-453 | the same inside the domain loop |
| `Connector.ReactivationBatch` | crates/rdpcore-connector/src/lib.rs:367-407 | and inside the reactivation loop |
| `Connector.DomainStable` | crates/rdpcore-pdu/src/mcs.rs:244-375 | decoding a domain PDU consumes at least a byte and does not depend on what follows it |
| `Connector.SendDataStable` | crates/rdpcore-pdu/src/mcs.rs:441-471 | nor does decoding a Send Data request |
| `Connector.Acceptor.StepOnce` | crates/rdpcore-connector/src/lib.rs:312-359 | the step method is the specified step in every state |
| `Connector.Acceptor.StepOpening` | crates/rdpcore-connector/src/lib.rs:335-358 | an error in an opening phase restores the phase |
| `Connector.Acceptor.StepReactivation` | crates/rdpcore-connector/src/lib.rs:367-407 | the request loop is the specified one |
| `Connector.Acceptor.StepMcsDomainPdus` | crates/rdpcore-connector/src/lib.rs:412-453 | the domain loop is the specified one |
| `Connector.Acceptor.HandleDomainPdu` | crates/rdpcore-connector/src/lib.rs:546-594 | the three domain handlers; an undecodable PDU leaves the acceptor rejected |
| `Connector.Acceptor.OnConfirmActiveSendData` | crates/rdpcore-connector/src/lib.rs:677-735 | collects fragments within the cap and answers a complete Confirm Active |
| `Connector.Acceptor.OnFinalizationSendData` | crates/rdpcore-connector/src/lib.rs:737-815 | grants control once and accepts on Font List |
| `NsCodec.PlaneRoundTrip` | crates/rdpcore-pdu/src/nscodec.rs:94-127 | the decoder of section 2.2.2 of MS-RDPNSC inverts the encoder on every plane with 16-bit sides and leaves the bytes after it, even where the raw tail continues the last run |
| `NsCodec.ConstAgreesIff` | crates/rdpcore-pdu/src/nscodec.rs:130-150 | the constant-plane shortcut equals the encoder exactly up to 2^32 + 4 samples |
| `NsCodec.RleEncode` | crates/rdpcore-pdu/src/nscodec.rs:94-127 | the encoder loop emits the specified code |
| `NsCodec.CountRun` | crates/rdpcore-pdu/src/nscodec.rs:105-110 | counts the run, up to its limit |
| `H264.UeRoundTrip` | crates/rdpcore-rdpegfx/src/h264_headers.rs:93-100 | the parser of section 9.1 of ITU-T H.264 reads every Exp-Golomb code back and leaves exactly the bits after it |
| `H264.SpsRoundTrip` | crates/rdpcore-rdpegfx/src/h264_headers.rs:19-38 | parsing the parameter set by section 7.3.2.1.1 recovers every field and leaves a stop bit and zeros up to a byte boundary |
| `H264.CodedSizeRoundTrip` | crates/rdpcore-rdpegfx/src/h264_headers.rs:6-12 | the coded size comes back for every non-zero 16-aligned 16-bit size |
| `H264.NoStartCode` | crates/rdpcore-rdpegfx/src/h264_headers.rs:6-38 | for every 16-bit size the parameter set contains no start code and nothing that would need an emulation-prevention byte, which the writer does not insert |
| `H264.BitWriter.WriteBits` | crates/rdpcore-rdpegfx/src/h264_headers.rs:86-91 | appends the low bits, highest first |
| `H264.BitWriter.WriteUe` | crates/rdpcore-rdpegfx/src/h264_headers.rs:93-100 | appends the Exp-Golomb code |
| `H264.BitWriter.WriteTrailing` | crates/rdpcore-rdpegfx/src/h264_headers.rs:111-116 | appends the trailing bits and ends on a byte |
| `H264.SpsRbsp` | crates/rdpcore-rdpegfx/src/h264_headers.rs:19-38 | the bytes are the bits of the specified parameter set |
| `Yuv.ForEachBlock` | crates/rdpcore-rdpegfx/src/encoder.rs:95-153 | the fused 2x2 walk writes every visible luma sample and every chroma block by the per-pixel definition, edges duplicated, each exactly once, and nothing else |
| `Yuv.InBounds` | crates/rdpcore-rdpegfx/src/encoder.rs:37-70 | every visible pixel is in the buffer for any stride that passes the geometry check |
| `Yuv.ClampsNeverAct` | crates/rdpcore-rdpegfx/src/encoder.rs:73-87 | luma and chroma are in range before the clamps for every colour |
| `Yuv.WalkBlock` | crates/rdpcore-rdpegfx/src/encoder.rs:110-150 | one block from one read of its pixels |
| `Yuv.I420Sound` | crates/rdpcore-rdpegfx/src/encoder.rs:160-194 | planar addresses are distinct and in range |
| `Yuv.Nv12Sound` | crates/rdpcore-rdpegfx/src/encoder.rs:212-286 | pitched interleaved addresses are |
| `Yuv.ToI420` | crates/rdpcore-rdpegfx/src/encoder.rs:160-208 | the result is the definition in planar layout, padding all zero bytes; bad geometry is refused |
| `Yuv.ToNv12` | crates/rdpcore-rdpegfx/src/encoder.rs:212-243 | the same interleaved |
| `Yuv.ToNv12Into` | crates/rdpcore-rdpegfx/src/encoder.rs:250-293 | the same into planes of any pitch, padding untouched; bad geometry or planes that are too small change nothing |
| `Yuv.FormatsAgree` | crates/rdpcore-rdpegfx/src/encoder.rs:160-243 | I420 and NV12 of one frame hold the same luma plane and block by block the same chroma |
| `Yuv.LayoutsAgree` | crates/rdpcore-rdpegfx/src/encoder.rs:160-293 | any two layouts, pitched or contiguous, over any padding, hold the same visible luma and chroma samples |
| `Yuv.LumaUnique` | crates/rdpcore-rdpegfx/src/encoder.rs:95-153 | the definition determines the plane |
| `Clipboard.TextRoundTripIff` | crates/rdpcore-cliprdr/src/pdu.rs:95-108 | an encoded Format Data Response decodes to its text, surrogate pairs included, exactly if the text holds no U+0000 |
| `Clipboard.ResponseReads` | crates/rdpcore-cliprdr/src/pdu.rs:166-191 | otherwise to the text before the first U+0000 |
| `Clipboard.EncodedLooksUtf16` | crates/rdpcore-cliprdr/src/pdu.rs:151-164 | the heuristic never takes encoded text for 8-bit text |
| `Clipboard.EightBitReads` | crates/rdpcore-cliprdr/src/pdu.rs:151-164 | zero-terminated 8-bit text is taken for what it is, but for a single byte, which reads as that code point |
| `Utf16.UnitsRoundTrip` | crates/rdpcore-pdu/src/utf16.rs:45-63 | unterminated text comes back, for every text |
| `Utf16.FixedRoundTripIff` | crates/rdpcore-pdu/src/utf16.rs:10-43 | a fixed-width field gives its text back exactly if that is empty, or free of U+0000 and short enough for the terminator |
| `Utf16.DecodeKeepsCount` | crates/rdpcore-pdu/src/utf16.rs:25-43 | decoding keeps the number of units even of broken surrogates |
| `Utf16.EncodeText` | crates/rdpcore-pdu/src/utf16.rs:45-51 | the loop emits the specified bytes |
| `Pacing.NeverAhead` | kmsrdp/src/audio.rs:102-113 | the audio sent is never more than 40 ms ahead of a clock that does not run backwards |
| `Pacing.WindowBound` | kmsrdp/src/audio.rs:102-113 | in any window of T ms at most T + 120 ms are sent |
| `Pacing.WindowBoundIsTight` | kmsrdp/src/audio.rs:102-113 | and that much can be |
| `Pacing.AlwaysPassesIff` | kmsrdp/src/audio.rs:102-113 | every chunk passes exactly if the clock is within 40 ms of its 64-bit end |
| `Pacing.PaceChunks` | kmsrdp/src/audio.rs:458-463 | the loop publishes exactly the chunks the rule admits |

## Left out

- Display resize: the desktop size is fixed in the hub and the session; `Connector` covers the resize handshake.
- The H.264 graphics pipeline of a session: a queued send that has nothing to send stands for its skipped frames.
- The NSCodec surface path: only its run-length layer is modelled, not the colour step or the raw-or-coded choice per plane; sessions are planar or raw.
- The frame number inside a frame marker.
- A client that rejects interleaved fragments outright: the client of the model starts over with the newer update.
- The picture parameter set and the Annex B start codes around the sequence parameter set.
- Byte encodings of server handshake PDUs, GCC blocks, capabilities, licensing, client info and share headers: flat structures, opaque values in `Connector`.
- Byte encodings of drive I/O requests, and the fields of a directory entry beyond its bounds: `Rdpdr` keeps commands and replies as values.
- Static-channel framing of drive messages: it is that of `Svc`.
- The cursor: only the byte read of `Cursor` moves in place; the other decoders consume sequences.
- Saturating address arithmetic on buffer sizes, which no buffer in memory reaches, is unbounded.
- Counters that overflow (channel ids, request ids) wrap, as in a release build; a debug build stops there instead.
- NsCodec.PlaneRoundTrip: covers planes of 16-bit sides, as its callers pass; a run of 2^32 samples or more would be cut.
- Clipboard.TextRoundTripIff: covers bodies below 4 GiB, the range of the length field.
- Pacing.NeverAhead: stays clear of the last 40 ms of the 64-bit clock, where `Pacing.AlwaysPassesIff` shows that the rule admits everything.
- Pacing.WindowBound: the same range of clocks.
- Rdpdr.RemoveAnswersStale: up to 2^32 issued requests, after which `Rdpdr.IssueOverwritesIff` says which request a reused id loses.
- Connector.BatchingIsInvisible: replies are packets, not their bytes; a response is their concatenation.
- Capture back ends, encoders in hardware, TLS and CredSSP, audio devices, clipboard watchers, configuration, metrics and process control.
