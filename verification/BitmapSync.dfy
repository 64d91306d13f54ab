/**
  What a session has confirmed to its client in full, and the resync that catches it up
  (crates/rdpcore-server/src/server/bitmap_sync.rs and resync_bitmap of crates/rdpcore-server/src/encode.rs).
 */
module BitmapSync {
  import opened Bytes
  import opened DirtyRects
  import opened Display

  datatype Sync = Sync(
    pending: bool,                   // a resync is owed
    synced: Option<BitmapUpdate>,    // the last full frame confirmed to have been queued
    target: Option<BitmapUpdate>)    // the frame a computed resync brings the client to, until it is queued

  const START := Sync(false, None, None)

  /** A resync compares with the confirmed frame only if its geometry is still the same. */
  predicate Comparable(last: Option<BitmapUpdate>, current: BitmapUpdate) {
    last.Some? && last.value.stride == current.stride && last.value.width == current.width && last.value.height == current.height
  }

  function Compared(last: BitmapUpdate, current: BitmapUpdate): Frames {
    Frames(last.data, last.stride, current.data, current.stride, BPP)
  }

  /** `diff` is what the frame-wide comparison found, if there is one. */
  ghost predicate Found(last: Option<BitmapUpdate>, current: BitmapUpdate, diff: seq<Rect>) {
    Comparable(last, current) ==> IsDiff(Compared(last.value, current), current.width, current.height, diff)
  }

  function Resync(last: Option<BitmapUpdate>, current: BitmapUpdate, diff: seq<Rect>): Option<BitmapUpdate> {
    if Comparable(last, current) then MergeRects(current, diff) else Some(current)
  }

  function MarkDirty(s: Sync): Sync {
    s.(pending := true)
  }

  /** The update to send, if a resync is owed and something differs; its frame becomes the target. */
  function TakePending(s: Sync, latest: Option<BitmapUpdate>, diff: seq<Rect>): (Sync, Option<BitmapUpdate>) {
    var s' := s.(pending := false);
    if !s.pending || latest.None? then (s', None)
    else
      var merged := Resync(s.synced, latest.value, diff);
      if merged.None? then (s', None) else (s'.(target := latest), merged)
  }

  function Defer(s: Sync): Sync {
    s.(pending := true, target := None)
  }

  function TakeTarget(s: Sync): (Sync, Option<BitmapUpdate>) {
    (s.(target := None), s.target)
  }

  function ConfirmSend(s: Sync, queued: bool, advanceSynced: Option<BitmapUpdate>, advanceFull: Option<BitmapUpdate>): Sync {
    if !queued then s.(pending := s.pending || advanceSynced.Some?)
    else if advanceSynced.Some? then s.(synced := advanceSynced, pending := false)
    else if advanceFull.Some? then s.(synced := advanceFull, pending := false)
    else s.(pending := true)
  }

  // ------------------------------------------------------------------
  // What a resync sends
  // ------------------------------------------------------------------

  /** The frame that a full update shows. */
  function FrameOf(u: BitmapUpdate): Frame {
    Frame(u.width, u.height, u.stride, u.data)
  }

  ghost predicate IsFull(u: BitmapUpdate) {
    FrameOf(u).Valid() && u == FullUpdate(FrameOf(u))
  }

  function PixelAt(f: Frame, x: nat, y: nat): Pixel {
    PixelOf(f.data, f.stride, x, y)
  }

  /**
    A resync shows the current frame wherever it differs from the confirmed one, and all of it if none is confirmed;
    there is nothing to send exactly when a frame of the same geometry was confirmed and shows the same picture.
   */
  lemma ResyncCovers(last: Option<BitmapUpdate>, current: BitmapUpdate, diff: seq<Rect>)
    requires IsFull(current) && (last.Some? ==> IsFull(last.value)) && Found(last, current, diff)
    ensures Resync(last, current, diff).None? <==>
              Comparable(last, current) && SamePicture(FrameOf(last.value), FrameOf(current))
    ensures var r := Resync(last, current, diff);
            r.Some? ==>
              && ViewOf(r.value, FrameOf(current))
              && forall x: nat, y: nat :: Visible(FrameOf(current), x, y) && !Shows(r.value, x, y) ==>
                   Comparable(last, current) && PixelAt(FrameOf(last.value), x, y) == PixelAt(FrameOf(current), x, y)
  {
    hide PixelOf, MergeRects, IsDiff, Offset, Covers;
    var f := FrameOf(current);
    if Comparable(last, current) {
      var g := FrameOf(last.value);
      assert FramesOf(g, f) == Compared(last.value, current);
      DiffCoversChanges(g, f, diff);
      DiffEmptyIff(g, f, diff);
      MergedUpdate(f, diff);
    }
  }

  lemma DiffEmptyIff(a: Frame, b: Frame, diff: seq<Rect>)
    requires a.Valid() && b.Valid() && a.width == b.width && a.height == b.height
    requires IsDiff(FramesOf(a, b), b.width, b.height, diff)
    ensures diff == [] <==> SamePicture(a, b)
  {
    hide PixelOf, Offset, Covers, IsDiff, CoversChanges;
    DiffCoversChanges(a, b, diff);
    DiffIsSound(FramesOf(a, b), b.width, b.height, diff);
    if SamePicture(a, b) {
      forall x: nat, y: nat | x < b.width && y < b.height ensures FramesOf(a, b).PixelEqual(x, y) {
        assert Visible(a, x, y);
        PixelEqualIff(a, b, x, y);
      }
    }
  }

  // ------------------------------------------------------------------
  // As the source runs it
  // ------------------------------------------------------------------

  method ResyncBitmap(last: Option<BitmapUpdate>, current: BitmapUpdate)
    returns (merged: Option<BitmapUpdate>, ghost diff: seq<Rect>)
    ensures Found(last, current, diff) && merged == Resync(last, current, diff)
  {
    diff := [];
    if last.None? || last.value.stride != current.stride || last.value.width != current.width
       || last.value.height != current.height {
      return Some(current), diff;
    }
    var rects := FindDirtyRects(Compared(last.value, current), current.width, current.height);
    diff := rects;
    merged := MergeDirtyRects(current, rects);
  }

  class BitmapSyncState {
    var pendingResync: bool
    var lastSyncedFull: Option<BitmapUpdate>
    var resyncTarget: Option<BitmapUpdate>

    ghost function State(): Sync
      reads this
    {
      Sync(pendingResync, lastSyncedFull, resyncTarget)
    }

    constructor ()
      ensures State() == START
    {
      pendingResync, lastSyncedFull, resyncTarget := false, None, None;
    }

    method OnDirty()
      modifies this
      ensures State() == MarkDirty(old(State()))
    {
      pendingResync := true;
    }

    method Take(latest: Option<BitmapUpdate>) returns (bitmap: Option<BitmapUpdate>, ghost diff: seq<Rect>)
      modifies this
      ensures old(pendingResync) && latest.Some? ==> Found(old(lastSyncedFull), latest.value, diff)
      ensures (State(), bitmap) == TakePending(old(State()), latest, diff)
    {
      hide IsDiff, MergeRects;
      diff := [];
      var was := pendingResync;
      pendingResync := false;
      if !was || latest.None? {
        return None, diff;
      }
      var merged;
      merged, diff := ResyncBitmap(lastSyncedFull, latest.value);
      if merged.None? {
        return None, diff;
      }
      resyncTarget := latest;
      bitmap := merged;
    }

    method Postpone() returns (hadTarget: bool)
      modifies this
      ensures State() == Defer(old(State())) && hadTarget == old(resyncTarget).Some?
    {
      hadTarget := resyncTarget.Some?;
      resyncTarget := None;
      pendingResync := true;
    }

    method TakeResyncTarget() returns (target: Option<BitmapUpdate>)
      modifies this
      ensures (State(), target) == TakeTarget(old(State()))
    {
      target := resyncTarget;
      resyncTarget := None;
    }

    method Confirm(queued: bool, advanceSynced: Option<BitmapUpdate>, advanceFull: Option<BitmapUpdate>)
      modifies this
      ensures State() == ConfirmSend(old(State()), queued, advanceSynced, advanceFull)
    {
      if !queued {
        if advanceSynced.Some? {
          pendingResync := true;
        }
        return;
      }
      if advanceSynced.Some? {
        lastSyncedFull := advanceSynced;
        pendingResync := false;
      } else if advanceFull.Some? {
        lastSyncedFull := advanceFull;
        pendingResync := false;
      } else {
        pendingResync := true;
      }
    }

    method Reset()
      modifies this
      ensures State() == START
    {
      pendingResync, lastSyncedFull, resyncTarget := false, None, None;
    }
  }
}
