/**
 * The renderer's pacing arithmetic: the inter-frame duration measured
 * against the last committed frame, and the target delay that corrects
 * it against the master clock (frameDuration and computeTargetDelay).
 * All values are milliseconds held in Kotlin Longs; none of the
 * computations below comes near the 64-bit range for real timestamps,
 * so they are modelled on unbounded integers.
 */
module SyncTiming {
  import opened VideoFrames

  /** Which clock is the master; only VideoMaster changes the renderer's behaviour. */
  datatype SyncType = AudioMaster | VideoMaster | ExternalClock

  /** SYNC_THRESHOLD_MIN, SYNC_THRESHOLD_MAX and SYNC_FRAMEDUP_THRESHOLD. */
  datatype SyncParams = SyncParams(thresholdMin: int, thresholdMax: int, framedupThreshold: int)

  /** The snapshot the renderer keeps of the last frame it committed. */
  datatype LastRenderFrame = LastRenderFrame(pts: int, serial: int, duration: int)

  /** LastRenderFrame(frame): the snapshot of a frame's pts, serial and duration. */
  function SnapshotOf(m: FrameMeta): (r: LastRenderFrame)
    ensures r.pts == m.pts && r.serial == m.serial && r.duration == m.duration
  {
    LastRenderFrame(m.pts, m.serial, m.duration)
  }

  function Max(a: int, b: int): int { if a >= b then a else b }
  function Min(a: int, b: int): int { if a <= b then a else b }

  /**
   * How long the last committed frame should stay on screen before next:
   * nothing across an epoch (serial) change; the pts gap when pts moves
   * forward within an epoch; the last frame's own duration when it does not.
   */
  function FrameDuration(current: LastRenderFrame, next: FrameMeta): (r: int)
    ensures current.serial != next.serial ==> r == 0
    ensures current.serial == next.serial && next.pts > current.pts ==> r == next.pts - current.pts > 0
    ensures current.serial == next.serial && next.pts <= current.pts ==> r == current.duration
  {
    if current.serial == next.serial then
      var duration := next.pts - current.pts;
      if duration <= 0 then current.duration else duration
    else
      0
  }

  /** The tolerance within which no correction is made: the delay clamped to [MIN, MAX]. */
  function SyncThreshold(delay: int, p: SyncParams): (thr: int)
    ensures p.thresholdMin <= thr
    ensures p.thresholdMin <= p.thresholdMax ==> thr <= p.thresholdMax
    ensures p.thresholdMin <= delay <= p.thresholdMax ==> thr == delay
    ensures delay <= p.thresholdMin ==> thr == p.thresholdMin
    ensures p.thresholdMin <= p.thresholdMax <= delay ==> thr == p.thresholdMax
  {
    Max(Min(delay, p.thresholdMax), p.thresholdMin)
  }

  /** The video is behind the master clock by at least the threshold. */
  predicate Behind(delay: int, diff: int, p: SyncParams) {
    diff <= -SyncThreshold(delay, p)
  }

  /** The video is ahead of the master clock by at least the threshold. */
  predicate Ahead(delay: int, diff: int, p: SyncParams) {
    !Behind(delay, diff, p) && diff >= SyncThreshold(delay, p)
  }

  /**
   * The delay before the next frame, corrected against the master clock
   * (diff = video clock - master clock). The correction only ever moves
   * the wait in the direction that closes the gap and never makes it negative.
   */
  function ComputeTargetDelay(delay: int, syncType: SyncType, videoClock: int, masterClock: int, p: SyncParams): (r: int)
    // the video is the master, or within tolerance: no correction
    ensures syncType == VideoMaster ==> r == delay
    ensures !Behind(delay, videoClock - masterClock, p) && !Ahead(delay, videoClock - masterClock, p) ==> r == delay
    // behind: wait less, never a negative wait
    ensures syncType != VideoMaster && Behind(delay, videoClock - masterClock, p) ==> 0 <= r
    ensures syncType != VideoMaster && Behind(delay, videoClock - masterClock, p) && 0 <= p.thresholdMin ==> r <= Max(0, delay)
    // ahead: wait longer
    ensures syncType != VideoMaster && Ahead(delay, videoClock - masterClock, p) && 0 <= delay ==> delay <= r
    ensures 0 <= delay ==> 0 <= r
  {
    if syncType != VideoMaster then
      var diff := videoClock - masterClock;
      var threshold := SyncThreshold(delay, p);
      if diff <= -threshold then Max(0, delay + diff)
      else if diff >= threshold && delay >= p.framedupThreshold then delay + diff
      else if diff >= threshold then delay * 2
      else delay
    else
      delay
  }

  /**
   * The four corrections exactly: behind, the lag is taken off the delay
   * (down to zero); ahead with a long frame, the lead is added; ahead with
   * a short frame, the delay is doubled; otherwise unchanged.
   */
  lemma TargetDelayCorrection(delay: int, syncType: SyncType, videoClock: int, masterClock: int, p: SyncParams)
    requires syncType != VideoMaster
    ensures var diff := videoClock - masterClock;
            var r := ComputeTargetDelay(delay, syncType, videoClock, masterClock, p);
            && (Behind(delay, diff, p) ==> r == Max(0, delay + diff))
            && (Ahead(delay, diff, p) && delay >= p.framedupThreshold ==> r == delay + diff)
            && (Ahead(delay, diff, p) && delay < p.framedupThreshold ==> r == 2 * delay)
            && (-SyncThreshold(delay, p) < diff < SyncThreshold(delay, p) ==> r == delay)
  {
  }

  /** For a non-negative delay the corrected wait never decreases as the video gets further ahead. */
  lemma TargetDelayMonotone(delay: int, syncType: SyncType, v1: int, v2: int, masterClock: int, p: SyncParams)
    requires 0 <= delay && 0 <= p.thresholdMin
    requires v1 <= v2
    ensures ComputeTargetDelay(delay, syncType, v1, masterClock, p) <= ComputeTargetDelay(delay, syncType, v2, masterClock, p)
  {
  }

  /**
   * The three outcomes of computeTargetDelay (VideoRenderer.kt lines 315-324)
   * at a 40 ms delay with SYNC_THRESHOLD_MIN 10, SYNC_THRESHOLD_MAX 100 and
   * SYNC_FRAMEDUP_THRESHOLD 50: the threshold is 40, so a lead of 60 ms on a
   * short frame doubles the delay to 80, a lag of 60 ms cuts it to 0, and a
   * lead of 5 ms leaves it at 40.
   */
  lemma TargetDelayExamples()
    ensures ComputeTargetDelay(40, AudioMaster, 60, 0, SyncParams(10, 100, 50)) == 80
    ensures ComputeTargetDelay(40, AudioMaster, 0, 60, SyncParams(10, 100, 50)) == 0
    ensures ComputeTargetDelay(40, AudioMaster, 5, 0, SyncParams(10, 100, 50)) == 40
  {
  }
}
