/**
 * The video renderer as a value: its state machine, its pacing state,
 * the frames handed to the view and not yet drawn, the render message
 * waiting on its looper, and the frame pool it shares with the decoder.
 * Every entry point of the renderer (play, pause, readableFrameReady,
 * requestRenderForce, release, attachPlayerView, one delivery of the
 * render message, the view's completion callback) is a function from
 * one Playback to the next; the decoder's two moves on the pool are
 * here too, so that whole runs can be reasoned about.
 */
module RendererSpec {
  import opened Options
  import opened VideoFrames
  import opened SyncTiming
  import opened FrameQueue

  datatype RendererState = NotInit | Paused | Playing | WaitingReadableFrameBuffer | Eof | Released

  /** canRenderStates: the states in which render messages are handled. */
  predicate CanRender(s: RendererState) {
    s == Playing || s == Eof || s == WaitingReadableFrameBuffer
  }

  /** The (pts, serial) the video clock was last set to by the renderer. */
  datatype ClockStamp = ClockStamp(pts: int, serial: int)

  /** The player's constants the renderer uses: thresholds, VIDEO_REFRESH_RATE, VIDEO_EOF_MAX_CHECK_TIMES. */
  datatype Config = Config(sync: SyncParams, refreshRate: int, eofMaxCheckTimes: nat)

  /**
   * What one render pass reads from outside the renderer: the uptime
   * clock, the packet queue's serial, the sync type, the two clocks
   * computeTargetDelay compares, and whether media info is loaded.
   */
  datatype Env = Env(now: int, producerSerial: int, syncType: SyncType, videoClock: int, masterClock: int, hasMediaInfo: bool)

  /**
   * The renderer's whole state. pending is waitingRenderFrames (handed to
   * the view, not yet drawn); scheduled is the delay of the render message
   * waiting on the looper, if there is one; clock is the video clock as
   * the renderer last set it.
   */
  datatype Playback<F(==)> = Playback(
    cfg: Config,
    state: RendererState,
    force: bool,
    viewAttached: bool,
    last: LastRenderFrame,
    frameTimer: int,
    pending: seq<F>,
    scheduled: Option<int>,
    clock: Option<ClockStamp>,
    q: Pool<F>)

  /** lastRenderFrame before any frame was committed: serial -1 matches no frame. */
  const InitialLast := LastRenderFrame(0, -1, 0)

  /** The renderer right after its init block: Paused, nothing shown, nothing scheduled. */
  function Init<F(==)>(cfg: Config, q: Pool<F>): Playback<F> {
    Playback(cfg, Paused, false, false, InitialLast, 0, [], None, None, q)
  }

  // ---------------------------------------------------------------- helpers

  /** sendEmptyMessageDelayed after removeMessages: the one waiting message now fires after d; a quit looper drops it. */
  function Post<F(==)>(w: Playback<F>, d: int): (r: Playback<F>)
    ensures r == w.(scheduled := r.scheduled)
    ensures w.state != Released ==> r.scheduled == Some(d)
    ensures w.state == Released ==> r == w
  {
    if w.state == Released then w else w.(scheduled := Some(d))
  }

  /** requestRender(delay): reschedule only in a render state or while a forced render is outstanding. */
  function RequestRender<F(==)>(w: Playback<F>, d: int): (r: Playback<F>)
    ensures r == w.(scheduled := r.scheduled)
    ensures (CanRender(w.state) || w.force) && w.state != Released ==> r.scheduled == Some(d)
    ensures !(CanRender(w.state) || w.force) || w.state == Released ==> r == w
  {
    if CanRender(w.state) || w.force then Post(w, d) else w
  }

  /** enqueueWriteableFrame: the frame goes back to the pool empty. */
  function Recycle<F(==)>(w: Playback<F>, f: F): Playback<F> {
    w.(q := PutWritable(w.q, f))
  }

  /** The frame has the plane arrays its layout needs; a frame of Unknown layout never has. */
  predicate PlanesReady(m: FrameMeta) {
    match m.imageType
    case Yuv420p => m.planes.y && m.planes.u && m.planes.v
    case Nv12 => m.planes.y && m.planes.uv
    case Nv21 => m.planes.y && m.planes.uv
    case Rgba => m.planes.rgba
    case Unknown => false
  }

  /** renderVideoFrame: hand the frame to the view when there is one and the planes are there, else recycle it. */
  function RenderFrame<F(==)>(w: Playback<F>, f: F): Playback<F> {
    if w.viewAttached && PlanesReady(w.q.Meta(f)) then w.(pending := w.pending + [f]) else Recycle(w, f)
  }

  /** renderViewCallback: the view has drawn the oldest handed-over frame, which is recycled. */
  function CompleteOne<F(==)>(w: Playback<F>): Playback<F> {
    if w.pending == [] then w else Recycle(w.(pending := w.pending[1..]), w.pending[0])
  }

  /**
   * Every handed-over frame recycled, oldest first: the completion
   * callbacks that arrive and the loop that polls the rest both take
   * waitingRenderFrames from its head.
   */
  function DrainPending<F(==)>(w: Playback<F>): Playback<F>
    decreases |w.pending|
  {
    if w.pending == [] then w else DrainPending(CompleteOne(w))
  }

  /** One completion before draining leaves the drained result as it was. */
  lemma CompleteThenDrain<F>(w: Playback<F>)
    ensures DrainPending(CompleteOne(w)) == DrainPending(w)
  {
  }

  /**
   * Draining hands every frame the view had back to the writable side,
   * in the order they were handed over; nothing but the pool changes.
   */
  lemma {:induction false} DrainPendingOutcome<F>(w: Playback<F>)
    ensures var r := DrainPending(w);
            && r.pending == []
            && r.q.writable == w.q.writable + w.pending
            && r.q.readable == w.q.readable && r.q.lent == w.q.lent && r.q.pool == w.q.pool
            && r == w.(pending := [], q := r.q)
    decreases |w.pending|
  {
    if w.pending != [] {
      var w1 := CompleteOne(w);
      assert w.q.writable + w.pending == w1.q.writable + w1.pending by {
        assert w.pending == [w.pending[0]] + w.pending[1..];
      }
      DrainPendingOutcome(w1);
    }
  }

  /** Every frame the view had comes back blank; every other frame keeps its metadata. */
  lemma {:induction false} DrainPendingBlanks<F>(w: Playback<F>)
    ensures var r := DrainPending(w);
            && (forall g :: g in w.pending ==> r.q.Meta(g).IsBlank())
            && (forall g :: g !in w.pending ==> r.q.Meta(g) == w.q.Meta(g))
    decreases |w.pending|
  {
    if w.pending != [] {
      var f := w.pending[0];
      var w1 := CompleteOne(w);
      assert w1.q.Meta(f).IsBlank();
      assert forall g :: g != f ==> w1.q.Meta(g) == w.q.Meta(g);
      assert w.pending == [f] + w1.pending;
      DrainPendingBlanks(w1);
    }
  }

  // ----------------------------------------------------------- one render pass

  /** The wait before the head frame is due, measured from the last committed frame and corrected against the master clock. */
  function TargetDelay<F(==)>(w: Playback<F>, env: Env, m: FrameMeta): int {
    ComputeTargetDelay(FrameDuration(w.last, m), env.syncType, env.videoClock, env.masterClock, w.cfg.sync)
  }

  /** The frame timer after a commit: advanced by the delay, or snapped to now when that left it more than SYNC_THRESHOLD_MAX behind. */
  function AdvanceTimer(timer: int, delay: int, now: int, thresholdMax: int): (t: int)
    ensures t == timer + delay || t == now
    ensures delay > 0 && now - (timer + delay) > thresholdMax ==> t == now
    ensures !(delay > 0 && now - (timer + delay) > thresholdMax) ==> t == timer + delay
    ensures delay > 0 ==> now - t <= Max(0, thresholdMax)
    ensures delay <= 0 ==> t == timer + delay
  {
    var t := timer + delay;
    if delay > 0 && now - t > thresholdMax then now else t
  }

  /** A forced render: show the head frame at once whatever the state, skipping frames of an old epoch. */
  function ForceTick<F(==)>(w: Playback<F>, env: Env): Playback<F> {
    match PeekReadable(w.q)
    case None => w
    case Some(f) =>
      var m := w.q.Meta(f);
      var taken := w.(q := Dequeue(w.q));
      if m.serial != env.producerSerial then RequestRender(Recycle(taken, f), 0)
      else ForceShow(taken, f)
  }

  /**
   * A forced render of a current frame f already taken from the pool:
   * the forced request ends; an ordinary frame sets the video clock and
   * goes to the view, the end-of-stream marker moves the renderer to Eof.
   */
  function ForceShow<F(==)>(w: Playback<F>, f: F): Playback<F> {
    var m := w.q.Meta(f);
    if !m.isEof then RenderFrame(w.(force := false, clock := Some(ClockStamp(m.pts, m.serial))), f)
    else Recycle(w.(force := false, state := Eof), f)
  }

  /** The next frame n is already late: an ordinary frame, a master other than the video, and its due time passed. */
  predicate LateFrame(last: LastRenderFrame, timer: int, env: Env, n: FrameMeta) {
    !n.isEof && env.syncType != VideoMaster && env.now > timer + FrameDuration(last, n)
  }

  /** After a commit: drop the next frame too when it is already late. */
  function DropLate<F(==)>(w: Playback<F>, env: Env): Playback<F> {
    match PeekReadable(w.q)
    case None => w
    case Some(g) =>
      if LateFrame(w.last, w.frameTimer, env, w.q.Meta(g)) then Recycle(w.(q := Dequeue(w.q)), g) else w
  }

  /** The head frame f is due: take it, advance the pacing state and the clock, drop a late successor, show f, go on. */
  function Commit<F(==)>(w: Playback<F>, env: Env, f: F, delay: int): Playback<F> {
    RequestRender(RenderFrame(DropLate(TakeDue(w, env, f, delay), env), f), 0)
  }

  /** Taking the due head frame f: it becomes the last frame and sets the video clock, and the timer advances. */
  function TakeDue<F(==)>(w: Playback<F>, env: Env, f: F, delay: int): Playback<F> {
    var m := w.q.Meta(f);
    w.(q := Dequeue(w.q), last := SnapshotOf(m),
       frameTimer := AdvanceTimer(w.frameTimer, delay, env.now, w.cfg.sync.thresholdMax),
       clock := Some(ClockStamp(m.pts, m.serial)))
  }

  /** Back to Playing from a waiting or end state; the frame timer restarts at now when m opens a new epoch. */
  function Resume<F(==)>(w: Playback<F>, env: Env, m: FrameMeta): Playback<F> {
    w.(state := if w.state == WaitingReadableFrameBuffer || w.state == Eof then Playing else w.state,
       frameTimer := if m.serial != w.last.serial then env.now else w.frameTimer)
  }

  /** A current, ordinary head frame f: resume, then wait for its due time (at most one refresh period) or commit it. */
  function PresentOrWait<F(==)>(w: Playback<F>, env: Env, f: F): Playback<F> {
    var m := w.q.Meta(f);
    var w1 := Resume(w, env, m);
    var delay := TargetDelay(w, env, m);
    if env.now < w1.frameTimer + delay then
      RequestRender(w1, Min(w1.frameTimer + delay - env.now, w.cfg.refreshRate))
    else
      Commit(w1, env, f, delay)
  }

  /** The end-of-stream marker reached the head: take it, let the view finish, recycle everything, state Eof. */
  function EofTick<F(==)>(w: Playback<F>): Playback<F> {
    match PeekReadable(w.q)
    case None => w
    case Some(f) => Recycle(DrainPending(w.(q := Dequeue(w.q))).(state := Eof), f)
  }

  /** An ordinary render pass. */
  function NormalTick<F(==)>(w: Playback<F>, env: Env): Playback<F> {
    if !env.hasMediaInfo || !CanRender(w.state) then w
    else
      match PeekReadable(w.q)
      case None =>
        if w.state == Playing then w.(state := WaitingReadableFrameBuffer) else w
      case Some(f) =>
        var m := w.q.Meta(f);
        if m.serial != env.producerSerial then
          RequestRender(Recycle(w.(last := SnapshotOf(m), q := Dequeue(w.q)), f), 0)
        else if !m.isEof then PresentOrWait(w, env, f)
        else EofTick(w)
  }

  /** The looper delivers the render message, as the handler is written: no look at the state before a forced pass. */
  function TickAsWritten<F(==)>(w: Playback<F>, env: Env): Playback<F> {
    var w0 := w.(scheduled := None);
    if w0.force then ForceTick(w0, env) else NormalTick(w0, env)
  }

  /** The looper delivers the render message; after release a late delivery does nothing. */
  function Tick<F(==)>(w: Playback<F>, env: Env): Playback<F> {
    if w.state == Released then w.(scheduled := None) else TickAsWritten(w, env)
  }

  // --------------------------------------------------------- public entry points

  /** play: only a paused or finished renderer starts playing, and a pass is scheduled at once. */
  function Play<F(==)>(w: Playback<F>): (r: Playback<F>)
    ensures w.state in {Paused, Eof} ==> r.state == Playing && r.scheduled == Some(0)
    ensures r == w.(state := r.state, scheduled := r.scheduled)
    ensures w.state !in {Paused, Eof} ==> r == w
  {
    if w.state == Paused || w.state == Eof then RequestRender(w.(state := Playing), 0) else w
  }

  /** pause: only a renderer in a render state pauses; nothing is unscheduled. */
  function Pause<F(==)>(w: Playback<F>): (r: Playback<F>)
    ensures w.state in {Playing, Eof, WaitingReadableFrameBuffer} ==> r.state == Paused
    ensures r == w.(state := r.state)
    ensures w.state !in {Playing, Eof, WaitingReadableFrameBuffer} ==> r == w
  {
    if CanRender(w.state) then w.(state := Paused) else w
  }

  /** readableFrameReady: a renderer waiting for frames, or with a forced render outstanding, looks again at once. */
  function ReadableFrameReady<F(==)>(w: Playback<F>): (r: Playback<F>)
    ensures r == w.(scheduled := r.scheduled)
    ensures (w.state == WaitingReadableFrameBuffer || w.force) && w.state != Released ==> r.scheduled == Some(0)
    ensures !(w.state == WaitingReadableFrameBuffer || w.force) ==> r == w
  {
    if w.state == WaitingReadableFrameBuffer || w.force then RequestRender(w, 0) else w
  }

  /** requestRenderForce: a live renderer without a forced render outstanding gets one, scheduled at once, in any state. */
  function RequestRenderForce<F(==)>(w: Playback<F>): (r: Playback<F>)
    ensures w.state !in {NotInit, Released} && !w.force ==> r == w.(force := true, scheduled := Some(0))
    ensures !(w.state !in {NotInit, Released} && !w.force) ==> r == w
  {
    if w.state != NotInit && w.state != Released && !w.force then RequestRender(w.(force := true), 0) else w
  }

  /** release: a live renderer is released and drained; from NotInit or Released nothing changes. */
  function Release<F(==)>(w: Playback<F>): (r: Playback<F>)
    ensures w.state in {NotInit, Released} ==> r == w
  {
    if w.state != NotInit && w.state != Released then
      DrainPending(w.(state := Released, viewAttached := false)).(scheduled := None)
    else w
  }

  function AttachView<F(==)>(w: Playback<F>, attached: bool): Playback<F> {
    w.(viewAttached := attached)
  }

  /** The decoder takes an empty frame from the pool. */
  function ProducerTake<F(==)>(w: Playback<F>): Playback<F> {
    w.(q := TakeWritable(w.q))
  }

  /** The decoder labels a frame it holds with a serial and the end-of-stream flag, fills it and hands it back. */
  function ProducerFill<F(==)>(w: Playback<F>, f: F, serial: int, isEof: bool, d: DecodedFrame): Playback<F> {
    if f in w.q.lent then w.(q := PutReadable(Label(w.q, f, serial, isEof), f, d)) else w
  }

  // ------------------------------------------------------------------- runs

  datatype Op<F> =
    | TickOp(env: Env)
    | PlayOp
    | PauseOp
    | ReadyOp
    | ForceOp
    | ReleaseOp
    | AttachOp(attached: bool)
    | CompleteOp
    | TakeOp
    | FillOp(f: F, serial: int, isEof: bool, d: DecodedFrame)

  function Step<F(==)>(w: Playback<F>, op: Op<F>): Playback<F> {
    match op
    case TickOp(env) => Tick(w, env)
    case PlayOp => Play(w)
    case PauseOp => Pause(w)
    case ReadyOp => ReadableFrameReady(w)
    case ForceOp => RequestRenderForce(w)
    case ReleaseOp => Release(w)
    case AttachOp(a) => AttachView(w, a)
    case CompleteOp => CompleteOne(w)
    case TakeOp => ProducerTake(w)
    case FillOp(f, serial, isEof, d) => ProducerFill(w, f, serial, isEof, d)
  }

  function Run<F(==)>(w: Playback<F>, ops: seq<Op<F>>): Playback<F>
    decreases |ops|
  {
    if ops == [] then w else Run(Step(w, ops[0]), ops[1..])
  }

  // -------------------------------------------------------------- invariant

  /**
   * Every pool frame is in exactly one place, or among the frames held in
   * flight by the pass that is running: on a side of the pool, with the
   * decoder, handed to the view, or in held.
   */
  ghost predicate HoldingAll<F>(w: Playback<F>, held: multiset<F>) {
    && PoolWf(w.q)
    && |w.q.pool| == MaxQueueSize
    && multiset(w.q.Sides() + w.pending) + held == multiset(w.q.pool)
  }

  /** Every pool frame is in exactly one place: on a side of the pool, with the decoder, or handed to the view. */
  ghost predicate Conserved<F>(w: Playback<F>) {
    HoldingAll(w, multiset{})
  }

  /** The renderer's invariant; after release nothing is handed over and nothing is scheduled. */
  ghost predicate Inv<F>(w: Playback<F>) {
    && w.state != NotInit
    && Conserved(w)
    && (w.state == Released ==> w.pending == [] && w.scheduled == None)
  }
}
