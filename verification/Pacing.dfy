/** The PCM pacing rule, after `pcm_send_budget` and the capture loop of kmsrdp/src/audio.rs. All times in milliseconds. */
module Pacing {
  import opened Bytes

  type u64 = x: int | 0 <= x < 0x1_0000_0000_0000_0000 witness 0

  const MAX: u64 := 0xFFFF_FFFF_FFFF_FFFF
  const CHUNK: u64 := 20
  const AHEAD: u64 := 40
  const SNAP_BEHIND: u64 := 80

  function SaturatingAdd(a: u64, b: u64): u64 {
    if a + b > MAX then MAX else a + b
  }

  /** Far behind, the count snaps to the clock. */
  function Snapped(sent: u64, elapsed: u64): u64 {
    if elapsed > SaturatingAdd(sent, SNAP_BEHIND) then elapsed else sent
  }

  /** The count after sending one chunk, or nothing where the chunk must be dropped. */
  function Budget(sent: u64, elapsed: u64): Option<u64> {
    var base := Snapped(sent, elapsed);
    if SaturatingAdd(base, CHUNK) <= SaturatingAdd(elapsed, AHEAD) then Some(SaturatingAdd(base, CHUNK)) else None
  }

  /** The clock is so late that the sums saturate, and every chunk passes. */
  lemma AlwaysPassesIff(elapsed: u64)
    ensures (forall sent: u64 :: Budget(sent, elapsed).Some?) <==> elapsed >= MAX - AHEAD
  {
    if elapsed < MAX - AHEAD {
      assert Budget(MAX, elapsed).None?;
    }
  }

  // ------------------------------------------------------------------
  // Runs
  // ------------------------------------------------------------------

  /** The count after chunks at these clock readings. */
  function Count(clocks: seq<u64>): u64 {
    if clocks == [] then 0
    else
      var before := Count(clocks[..|clocks| - 1]);
      match Budget(before, clocks[|clocks| - 1])
      case None => before
      case Some(after) => after
  }

  /** The milliseconds of audio sent. */
  function Sent(clocks: seq<u64>): nat {
    if clocks == [] then 0
    else
      var init := clocks[..|clocks| - 1];
      Sent(init) + if Budget(Count(init), clocks[|clocks| - 1]).Some? then CHUNK else 0
  }

  /** A clock that never runs backwards and stays clear of the last 40 ms of its range. */
  ghost predicate Clock(clocks: seq<u64>) {
    && (forall i, j :: 0 <= i <= j < |clocks| ==> clocks[i] <= clocks[j])
    && (forall i :: 0 <= i < |clocks| ==> clocks[i] < MAX - AHEAD)
  }

  lemma OneChunk(sent: u64, elapsed: u64)
    requires elapsed < MAX - AHEAD && sent <= elapsed + AHEAD
    ensures match Budget(sent, elapsed)
            case None => sent >= elapsed - SNAP_BEHIND
            case Some(after) => sent + CHUNK <= after <= elapsed + AHEAD && after >= elapsed - SNAP_BEHIND + CHUNK
  {
  }

  /** What has been sent is never more than the count, and that never more than 40 ms ahead of the clock. */
  lemma {:induction false} NeverAhead(clocks: seq<u64>)
    requires Clock(clocks)
    ensures Sent(clocks) <= Count(clocks)
    ensures clocks != [] ==> Sent(clocks) <= Count(clocks) <= clocks[|clocks| - 1] + AHEAD
    ensures clocks == [] ==> Count(clocks) == 0
    decreases |clocks|
  {
    if clocks != [] {
      var init, now := clocks[..|clocks| - 1], clocks[|clocks| - 1];
      NeverAhead(init);
      assert init != [] ==> init[|init| - 1] == clocks[|init| - 1] <= now;
      OneChunk(Count(init), now);
    }
  }

  /** The chunks after the first `i` account for no more than the count has grown since the snap at the first of them. */
  lemma {:induction false} WindowGrowth(clocks: seq<u64>, i: nat, j: nat)
    requires Clock(clocks) && i < j <= |clocks|
    ensures Sent(clocks[..j]) - Sent(clocks[..i]) <= Count(clocks[..j]) - Snapped(Count(clocks[..i]), clocks[i])
    decreases j
  {
    var before := clocks[..j - 1];
    assert clocks[..j][..j - 1] == before && clocks[..j][j - 1] == clocks[j - 1];
    NeverAhead(before);
    assert before != [] ==> before[|before| - 1] == clocks[j - 2] <= clocks[j - 1];
    OneChunk(Count(before), clocks[j - 1]);
    if j - 1 == i {
      assert before == clocks[..i];
    } else {
      WindowGrowth(clocks, i, j - 1);
    }
  }

  /** In any window of T ms, at most T + 120 ms go out: a stall is never made up for in a burst. */
  lemma WindowBound(clocks: seq<u64>, i: nat, j: nat)
    requires Clock(clocks) && i < j <= |clocks|
    ensures Sent(clocks[..j]) - Sent(clocks[..i]) <= clocks[j - 1] - clocks[i] + AHEAD + SNAP_BEHIND
  {
    WindowGrowth(clocks, i, j);
    NeverAhead(clocks[..j]);
  }

  /** `n` chunks at the same clock reading. */
  function Burst(t: u64, n: nat): seq<u64> {
    seq(n, _ => t)
  }

  lemma {:induction false} BurstSent(n: nat)
    requires n <= 6
    ensures Count(Burst(SNAP_BEHIND, n)) == Sent(Burst(SNAP_BEHIND, n)) == n * CHUNK
  {
    if n > 0 {
      BurstSent(n - 1);
      assert Burst(SNAP_BEHIND, n)[..n - 1] == Burst(SNAP_BEHIND, n - 1);
    }
  }

  /** The 120 ms are reached: six chunks at once, just before the rule would have snapped. */
  lemma WindowBoundIsTight()
    ensures Clock(Burst(80, 6)) && Sent(Burst(80, 6)) == 80 - 80 + AHEAD + SNAP_BEHIND
  {
    BurstSent(6);
  }

  /** The capture loop's use of the rule. */
  method PaceChunks(clocks: seq<u64>) returns (published: nat)
    ensures published * CHUNK == Sent(clocks)
  {
    var sent: u64 := 0;
    published := 0;
    for k := 0 to |clocks|
      invariant sent == Count(clocks[..k]) && published * CHUNK == Sent(clocks[..k])
    {
      assert clocks[..k + 1][..k] == clocks[..k];
      var next := Budget(sent, clocks[k]);
      if next.Some? {
        sent := next.value;
        published := published + 1;
      }
    }
    assert clocks[..|clocks|] == clocks;
  }
}
