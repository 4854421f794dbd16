/**
 * The video renderer as an object. Each public entry point and each
 * delivery of the render message updates the renderer's fields and the
 * frame pool in place, and is proved to take the renderer from one
 * Playback value to the one RendererSpec prescribes; the invariant
 * RendererInvariant proves about those values is then the class invariant.
 */
module Renderer {
  import opened Options
  import opened VideoFrames
  import opened SyncTiming
  import opened FrameQueue
  import opened RendererSpec
  import opened RendererInvariant

  class VideoRenderer {
    /** The frame pool shared with the decoder. */
    const queue: VideoFrameQueue
    const cfg: Config

    var state: RendererState
    /** renderForce: a forced render is outstanding. */
    var renderForce: bool
    /** A player view is attached. */
    var viewAttached: bool
    var lastRenderFrame: LastRenderFrame
    var frameTimer: int
    /** Frames handed to the view and not yet drawn, oldest first. */
    var waitingRenderFrames: seq<VideoFrame>
    /** The delay of the render message waiting on the renderer's looper, if any. */
    var scheduled: Option<int>
    /** The video clock as the renderer last set it. */
    var clock: Option<ClockStamp>

    ghost function Abs(): Playback<VideoFrame>
      reads this, queue
    {
      Playback(cfg, state, renderForce, viewAttached, lastRenderFrame, frameTimer,
               waitingRenderFrames, scheduled, clock, queue.Abs())
    }

    ghost predicate Valid()
      reads this, queue, queue.pool
    {
      queue.Valid() && Inv(Abs())
    }

    /** Every frame handed to the view belongs to the pool. */
    ghost predicate ViewFramesInPool()
      reads this, queue
    {
      forall g :: g in waitingRenderFrames ==> g in queue.pool
    }

    lemma ValidViewFrames()
      requires Valid()
      ensures ViewFramesInPool()
    {
      forall g | g in waitingRenderFrames ensures g in queue.pool {
        PendingInPool(Abs(), multiset{}, g);
      }
    }

    /**
     * The renderer over a pool whose frames are each on one side: Paused,
     * nothing shown, nothing scheduled, no view.
     */
    constructor (queue: VideoFrameQueue, cfg: Config)
      requires queue.Valid() && multiset(queue.Abs().Sides()) == multiset(queue.pool)
      ensures Valid() && Abs() == Init(cfg, queue.Abs())
    {
      this.queue := queue;
      this.cfg := cfg;
      state := Paused;
      renderForce := false;
      viewAttached := false;
      lastRenderFrame := InitialLast;
      frameTimer := 0;
      waitingRenderFrames := [];
      scheduled := None;
      clock := None;
      new;
      assert queue.Abs().Sides() + [] == queue.Abs().Sides();
    }

    /** sendEmptyMessageDelayed after removeMessages; the looper has quit once the renderer is released. */
    method Post(d: int)
      modifies this`scheduled
      ensures Abs() == RendererSpec.Post(old(Abs()), d)
    {
      if state != Released {
        scheduled := Some(d);
      }
    }

    /** requestRender */
    method RequestRender(d: int)
      modifies this`scheduled
      ensures Abs() == RendererSpec.RequestRender(old(Abs()), d)
    {
      if CanRender(state) || renderForce {
        Post(d);
      }
    }

    /** enqueueWriteableFrame */
    method EnqueueWriteableFrame(f: VideoFrame)
      requires queue.Valid() && f in queue.pool
      modifies queue`writable, queue`metas, f`pts, f`duration, f`serial, f`imageType, f`width, f`height, f`isEof
      ensures queue.Valid() && Abs() == Recycle(old(Abs()), f)
    {
      queue.EnqueueWritable(f);
    }

    /** renderVideoFrame: the view gets the frame when it is attached and the layout's planes are there. */
    method RenderVideoFrame(f: VideoFrame)
      requires queue.Valid() && f in queue.pool
      modifies this`waitingRenderFrames, queue`writable, queue`metas, f`pts, f`duration, f`serial, f`imageType, f`width, f`height, f`isEof
      ensures queue.Valid() && Abs() == RenderFrame(old(Abs()), f)
    {
      assert queue.Abs().Meta(f) == f.Meta();
      // the planes each layout hands to the view; an Unknown layout is never drawn
      var ready := match f.imageType
        case Yuv420p => f.yBuffer != null && f.uBuffer != null && f.vBuffer != null
        case Nv12 => f.yBuffer != null && f.uvBuffer != null
        case Nv21 => f.yBuffer != null && f.uvBuffer != null
        case Rgba => f.rgbaBuffer != null
        case Unknown => false;
      assert ready == PlanesReady(f.Meta());
      if viewAttached && ready {
        waitingRenderFrames := waitingRenderFrames + [f];
      } else {
        EnqueueWriteableFrame(f);
      }
    }

    /** The body of renderViewCallback: the view has drawn its oldest frame, which goes back to the pool. */
    method CompleteDraw()
      requires queue.Valid() && ViewFramesInPool()
      modifies this`waitingRenderFrames, queue`writable, queue`metas, queue.pool`pts, queue.pool`duration, queue.pool`serial, queue.pool`imageType, queue.pool`width, queue.pool`height, queue.pool`isEof
      ensures queue.Valid() && ViewFramesInPool() && Abs() == CompleteOne(old(Abs()))
    {
      if waitingRenderFrames != [] {
        var b := waitingRenderFrames[0];
        assert b in queue.pool;
        waitingRenderFrames := waitingRenderFrames[1..];
        EnqueueWriteableFrame(b);
      }
    }

    /** The loop that recycles every frame still handed to the view, oldest first. */
    method DrainWaiting()
      requires queue.Valid() && ViewFramesInPool()
      modifies this`waitingRenderFrames, queue`writable, queue`metas, queue.pool`pts, queue.pool`duration, queue.pool`serial, queue.pool`imageType, queue.pool`width, queue.pool`height, queue.pool`isEof
      ensures queue.Valid() && Abs() == DrainPending(old(Abs()))
    {
      while waitingRenderFrames != []
        invariant queue.Valid() && ViewFramesInPool()
        invariant DrainPending(Abs()) == DrainPending(old(Abs()))
        decreases |waitingRenderFrames|
      {
        CompleteThenDrain(Abs());
        CompleteDraw();
      }
    }
  
    /** The view draws k of its frames, oldest first. */
    method ViewDraws(k: nat)
      requires queue.Valid() && ViewFramesInPool()
      modifies this`waitingRenderFrames, queue`writable, queue`metas, queue.pool`pts, queue.pool`duration, queue.pool`serial, queue.pool`imageType, queue.pool`width, queue.pool`height, queue.pool`isEof
      ensures queue.Valid() && ViewFramesInPool()
      ensures DrainPending(Abs()) == DrainPending(old(Abs()))
      ensures |waitingRenderFrames| <= old(|waitingRenderFrames|)
    {
      var i := 0;
      while i < k
        invariant queue.Valid() && ViewFramesInPool()
        invariant DrainPending(Abs()) == DrainPending(old(Abs()))
        invariant |waitingRenderFrames| <= old(|waitingRenderFrames|)
      {
        CompleteThenDrain(Abs());
        CompleteDraw();
        i := i + 1;
      }
    }

    /**
     * The end-of-stream wait: while the view still has frames, sleep one
     * check period, during which the view draws drawn[i] frames in the
     * i-th period (none when drawn runs out), and give up after
     * eofMaxCheckTimes periods (but only after at least one).
     */
    method WaitForView(drawn: seq<nat>) returns (checkTimes: nat)
      requires queue.Valid() && ViewFramesInPool()
      modifies this`waitingRenderFrames, queue`writable, queue`metas, queue.pool`pts, queue.pool`duration, queue.pool`serial, queue.pool`imageType, queue.pool`width, queue.pool`height, queue.pool`isEof
      ensures queue.Valid() && ViewFramesInPool()
      ensures DrainPending(Abs()) == DrainPending(old(Abs()))
      ensures checkTimes <= Max(1, cfg.eofMaxCheckTimes)
      ensures old(waitingRenderFrames) == [] ==> checkTimes == 0
      ensures waitingRenderFrames == [] || checkTimes == Max(1, cfg.eofMaxCheckTimes)
    {
      ghost var limit := Max(1, cfg.eofMaxCheckTimes);
      ghost var wasEmpty := waitingRenderFrames == [];
      checkTimes := 0;
      while waitingRenderFrames != []
        invariant queue.Valid() && ViewFramesInPool()
        invariant DrainPending(Abs()) == DrainPending(old(Abs()))
        invariant checkTimes < limit
        invariant wasEmpty ==> checkTimes == 0 && waitingRenderFrames == []
        decreases limit - checkTimes
      {
        var period := checkTimes;
        checkTimes := checkTimes + 1;
        ViewDraws(if period < |drawn| then drawn[period] else 0);
        if checkTimes >= cfg.eofMaxCheckTimes {
          break;
        }
      }
    }
  
    /** The forced branch of handleMessage. */
    method ForceRender(env: Env)
      requires queue.Valid()
      modifies this`renderForce, this`clock, this`state, this`scheduled, this`waitingRenderFrames, queue`readable, queue`writable, queue`metas, queue.pool`pts, queue.pool`duration, queue.pool`serial, queue.pool`imageType, queue.pool`width, queue.pool`height, queue.pool`isEof
      ensures queue.Valid() && Abs() == ForceTick(old(Abs()), env)
    {
      ghost var w0 := Abs();
      var frame := queue.DequeueReadable();
      if frame != null {
        assert frame == w0.q.readable[0] && frame in queue.pool;
        assert frame.Meta() == w0.q.Meta(frame);
        ghost var taken := Abs();
        assert taken == w0.(q := Dequeue(w0.q));
        if frame.serial != env.producerSerial {
          assert ForceTick(w0, env) == RendererSpec.RequestRender(Recycle(taken, frame), 0);
          EnqueueWriteableFrame(frame);
          RequestRender(0);
          return;
        }
        assert ForceTick(w0, env) == ForceShow(taken, frame);
        ForceShowFrame(frame);
      }
    }

    /** A forced render of a current frame already taken from the pool. */
    method ForceShowFrame(frame: VideoFrame)
      requires queue.Valid() && frame in queue.pool
      modifies this`renderForce, this`clock, this`state, this`waitingRenderFrames, queue`writable, queue`metas, frame`pts, frame`duration, frame`serial, frame`imageType, frame`width, frame`height, frame`isEof
      ensures queue.Valid() && Abs() == ForceShow(old(Abs()), frame)
    {
      assert frame.Meta() == queue.Abs().Meta(frame);
      renderForce := false;
      if !frame.isEof {
        clock := Some(ClockStamp(frame.pts, frame.serial));
        RenderVideoFrame(frame);
      } else {
        state := Eof;
        EnqueueWriteableFrame(frame);
      }
    }

    /** After a commit: drop the next readable frame too when it is already late. */
    method DropLateSuccessor(env: Env)
      requires queue.Valid()
      modifies queue`readable, queue`writable, queue`metas, queue.pool`pts, queue.pool`duration, queue.pool`serial, queue.pool`imageType, queue.pool`width, queue.pool`height, queue.pool`isEof
      ensures queue.Valid() && Abs() == DropLate(old(Abs()), env)
    {
      ghost var w0 := Abs();
      var next := queue.PeekReadable();
      if next != null && !next.isEof {
        assert next in queue.pool && next.Meta() == w0.q.Meta(next);
        var duration := FrameDuration(lastRenderFrame, next.Meta());
        if env.syncType != VideoMaster && env.now > frameTimer + duration {
          var n := queue.DequeueReadable();
          EnqueueWriteableFrame(next);
          assert DropLate(w0, env) == Recycle(w0.(q := Dequeue(w0.q)), next);
        }
      }
    }

    /**
     * The head frame is due: take it, advance the pacing state, set the
     * video clock, drop a late successor, show the frame, go on at once.
     */
    method CommitFrame(env: Env, frame: VideoFrame, delay: int)
      requires queue.Valid() && queue.readable != [] && frame == queue.readable[0]
      modifies this`lastRenderFrame, this`frameTimer, this`clock, this`scheduled, this`waitingRenderFrames, queue`readable, queue`writable, queue`metas, queue.pool`pts, queue.pool`duration, queue.pool`serial, queue.pool`imageType, queue.pool`width, queue.pool`height, queue.pool`isEof
      ensures queue.Valid() && Abs() == Commit(old(Abs()), env, frame, delay)
    {
      TakeDueFrame(env, frame, delay);
      DropLateSuccessor(env);
      assert frame in queue.pool;
      RenderVideoFrame(frame);
      RequestRender(0);
    }

    /** Take the due head frame and advance the pacing state and the video clock. */
    method TakeDueFrame(env: Env, frame: VideoFrame, delay: int)
      requires queue.Valid() && queue.readable != [] && frame == queue.readable[0]
      modifies this`lastRenderFrame, this`frameTimer, this`clock, queue`readable
      ensures queue.Valid() && frame in queue.pool && Abs() == TakeDue(old(Abs()), env, frame, delay)
    {
      ghost var w0 := Abs();
      ghost var m := w0.q.Meta(frame);
      assert frame in queue.pool && frame.Meta() == m;
      var frameToCheck := queue.DequeueReadable();
      assert Abs() == w0.(q := Dequeue(w0.q));
      var time := env.now;
      lastRenderFrame := SnapshotOf(frame.Meta());
      frameTimer := frameTimer + delay;
      if delay > 0 && time - frameTimer > cfg.sync.thresholdMax {
        frameTimer := time;
      }
      assert frameTimer == AdvanceTimer(w0.frameTimer, delay, env.now, cfg.sync.thresholdMax);
      clock := Some(ClockStamp(frame.pts, frame.serial));
      assert Abs() == w0.(q := Dequeue(w0.q), last := SnapshotOf(m), frameTimer := frameTimer, clock := Some(ClockStamp(m.pts, m.serial)));
    }
  
    /** A current, ordinary head frame: resume playing, restart the timer on a new epoch, then wait or commit. */
    method PresentOrWaitFrame(env: Env, frame: VideoFrame)
      requires queue.Valid() && queue.readable != [] && frame == queue.readable[0]
      modifies this`state, this`lastRenderFrame, this`frameTimer, this`clock, this`scheduled, this`waitingRenderFrames, queue`readable, queue`writable, queue`metas, queue.pool`pts, queue.pool`duration, queue.pool`serial, queue.pool`imageType, queue.pool`width, queue.pool`height, queue.pool`isEof
      ensures queue.Valid() && Abs() == PresentOrWait(old(Abs()), env, frame)
    {
      assert frame in queue.pool && frame.Meta() == queue.Abs().Meta(frame);
      ResumeFor(env, frame);
      var lastDuration := FrameDuration(lastRenderFrame, frame.Meta());
      var delay := ComputeTargetDelay(lastDuration, env.syncType, env.videoClock, env.masterClock, cfg.sync);
      var time := env.now;
      if time < frameTimer + delay {
        RequestRender(Min(frameTimer + delay - time, cfg.refreshRate));
        return;
      }
      CommitFrame(env, frame, delay);
    }

    /** Back to Playing from a waiting or end state; restart the frame timer on a new epoch. */
    method ResumeFor(env: Env, frame: VideoFrame)
      modifies this`state, this`frameTimer
      ensures Abs() == Resume(old(Abs()), env, frame.Meta())
    {
      if state == WaitingReadableFrameBuffer || state == Eof {
        state := Playing;
      }
      var lastFrame := lastRenderFrame;
      if frame.serial != lastFrame.serial {
        frameTimer := env.now;
      }
    }

    /**
     * The end-of-stream marker reached the head: take it, let the view
     * finish, and stop in Eof with the marker back in the pool.
     * checkTimes is the number of check periods waited.
     */
    method EndOfStream(frame: VideoFrame, drawn: seq<nat>) returns (checkTimes: nat)
      requires queue.Valid() && ViewFramesInPool() && queue.readable != [] && frame == queue.readable[0]
      modifies this`state, this`waitingRenderFrames, queue`readable, queue`writable, queue`metas, queue.pool`pts, queue.pool`duration, queue.pool`serial, queue.pool`imageType, queue.pool`width, queue.pool`height, queue.pool`isEof
      ensures queue.Valid() && Abs() == EofTick(old(Abs()))
      ensures checkTimes <= Max(1, cfg.eofMaxCheckTimes)
    {
      ghost var w0 := Abs();
      assert frame in queue.pool;
      var frameToCheck := queue.DequeueReadable();
      ghost var taken := Abs();
      assert taken == w0.(q := Dequeue(w0.q));
      checkTimes := FinishView(drawn);
      state := Eof;
      assert Abs() == DrainPending(taken).(state := Eof);
      EnqueueWriteableFrame(frame);
    }

    /**
     * Give the view time to draw what it has, then recycle whatever it
     * still has: either way every frame it had is back in the pool.
     */
    method FinishView(drawn: seq<nat>) returns (checkTimes: nat)
      requires queue.Valid() && ViewFramesInPool()
      modifies this`waitingRenderFrames, queue`writable, queue`metas, queue.pool`pts, queue.pool`duration, queue.pool`serial, queue.pool`imageType, queue.pool`width, queue.pool`height, queue.pool`isEof
      ensures queue.Valid() && Abs() == DrainPending(old(Abs()))
      ensures checkTimes <= Max(1, cfg.eofMaxCheckTimes)
    {
      checkTimes := WaitForView(drawn);
      DrainWaiting();
    }

    /** A head frame of an old epoch: record it as the last frame, recycle it, and look again at once. */
    method DiscardStale(frame: VideoFrame)
      requires queue.Valid() && queue.readable != [] && frame == queue.readable[0]
      modifies this`lastRenderFrame, this`scheduled, queue`readable, queue`writable, queue`metas, frame`pts, frame`duration, frame`serial, frame`imageType, frame`width, frame`height, frame`isEof
      ensures queue.Valid()
      ensures Abs() == RendererSpec.RequestRender(Recycle(old(Abs()).(last := SnapshotOf(old(Abs()).q.Meta(frame)), q := Dequeue(old(Abs()).q)), frame), 0)
    {
      assert frame in queue.pool && frame.Meta() == queue.Abs().Meta(frame);
      lastRenderFrame := SnapshotOf(frame.Meta());
      var frameToCheck := queue.DequeueReadable();
      EnqueueWriteableFrame(frame);
      RequestRender(0);
    }

    /** The unforced branch of handleMessage; drawn says how many frames the view draws in each end-of-stream check period. */
    method RenderPass(env: Env, drawn: seq<nat>)
      requires queue.Valid() && ViewFramesInPool()
      modifies this`state, this`lastRenderFrame, this`frameTimer, this`clock, this`scheduled, this`waitingRenderFrames, queue`readable, queue`writable, queue`metas, queue.pool`pts, queue.pool`duration, queue.pool`serial, queue.pool`imageType, queue.pool`width, queue.pool`height, queue.pool`isEof
      ensures queue.Valid() && Abs() == NormalTick(old(Abs()), env)
    {
      ghost var w0 := Abs();
      if !env.hasMediaInfo || !CanRender(state) {
        return;
      }
      var frame := queue.PeekReadable();
      if frame == null {
        if state == Playing {
          state := WaitingReadableFrameBuffer;
        }
        return;
      }
      assert frame in queue.pool && frame.Meta() == w0.q.Meta(frame);
      if frame.serial != env.producerSerial {
        DiscardStale(frame);
        return;
      }
      if !frame.isEof {
        PresentOrWaitFrame(env, frame);
        assert NormalTick(w0, env) == PresentOrWait(w0, env, frame);
      } else {
        var checkTimes := EndOfStream(frame, drawn);
        assert NormalTick(w0, env) == EofTick(w0);
      }
    }

    /**
     * handleMessage for the render message: the looper has delivered it,
     * so none is waiting any more; after release nothing else happens.
     */
    method HandleMessage(env: Env, drawn: seq<nat>)
      requires Valid()
      modifies this`renderForce, this`state, this`lastRenderFrame, this`frameTimer, this`clock, this`scheduled, this`waitingRenderFrames, queue`readable, queue`writable, queue`metas, queue.pool`pts, queue.pool`duration, queue.pool`serial, queue.pool`imageType, queue.pool`width, queue.pool`height, queue.pool`isEof
      ensures Valid() && Abs() == Tick(old(Abs()), env)
    {
      TickPreservesInv(Abs(), env);
      ValidViewFrames();
      Deliver(env, drawn);
    }

    /** The body of handleMessage, from the state the class invariant guarantees. */
    method Deliver(env: Env, drawn: seq<nat>)
      requires queue.Valid() && ViewFramesInPool()
      modifies this`renderForce, this`state, this`lastRenderFrame, this`frameTimer, this`clock, this`scheduled, this`waitingRenderFrames, queue`readable, queue`writable, queue`metas, queue.pool`pts, queue.pool`duration, queue.pool`serial, queue.pool`imageType, queue.pool`width, queue.pool`height, queue.pool`isEof
      ensures queue.Valid() && Abs() == Tick(old(Abs()), env)
    {
      scheduled := None;
      if state == Released {
        return;
      }
      if renderForce {
        ForceRender(env);
      } else {
        RenderPass(env, drawn);
      }
    }

    method Play()
      requires Valid()
      modifies this`state, this`scheduled
      ensures Valid() && Abs() == RendererSpec.Play(old(Abs()))
    {
      ghost var w0 := Abs();
      PlayPreservesInv(w0);
      if state == Paused || state == Eof {
        state := Playing;
        RequestRender(0);
      }
      assert Abs() == RendererSpec.Play(w0);
    }

    method Pause()
      requires Valid()
      modifies this`state
      ensures Valid() && Abs() == RendererSpec.Pause(old(Abs()))
    {
      PausePreservesInv(Abs());
      if CanRender(state) {
        state := Paused;
      }
    }

    method ReadableFrameReady()
      requires Valid()
      modifies this`scheduled
      ensures Valid() && Abs() == RendererSpec.ReadableFrameReady(old(Abs()))
    {
      ReadyPreservesInv(Abs());
      if state == WaitingReadableFrameBuffer || renderForce {
        RequestRender(0);
      }
    }

    method RequestRenderForce()
      requires Valid()
      modifies this`renderForce, this`scheduled
      ensures Valid() && Abs() == RendererSpec.RequestRenderForce(old(Abs()))
    {
      ForcePreservesInv(Abs());
      if state != NotInit && state != Released {
        if !renderForce {
          renderForce := true;
          RequestRender(0);
        }
      }
    }

    /** release: detach the view, give every frame the view holds back to the pool, quit the looper. */
    method Release()
      requires Valid()
      modifies this`state, this`viewAttached, this`scheduled, this`waitingRenderFrames, queue`writable, queue`metas, queue.pool`pts, queue.pool`duration, queue.pool`serial, queue.pool`imageType, queue.pool`width, queue.pool`height, queue.pool`isEof
      ensures Valid() && Abs() == RendererSpec.Release(old(Abs()))
    {
      ReleasePreservesInv(Abs());
      ValidViewFrames();
      if state != NotInit && state != Released {
        Shutdown();
      }
    }

    /** The release of a live renderer, from the state the class invariant guarantees. */
    method Shutdown()
      requires queue.Valid() && ViewFramesInPool() && state != NotInit && state != Released
      modifies this`state, this`viewAttached, this`scheduled, this`waitingRenderFrames, queue`writable, queue`metas, queue.pool`pts, queue.pool`duration, queue.pool`serial, queue.pool`imageType, queue.pool`width, queue.pool`height, queue.pool`isEof
      ensures queue.Valid() && Abs() == RendererSpec.Release(old(Abs()))
    {
      ghost var w0 := Abs();
      state := Released;
      viewAttached := false;
      assert Abs() == w0.(state := Released, viewAttached := false);
      DrainWaiting();
      scheduled := None;
    }

    method AttachPlayerView(attached: bool)
      requires Valid()
      modifies this`viewAttached
      ensures Valid() && Abs() == AttachView(old(Abs()), attached)
    {
      StepPreservesInv(Abs(), AttachOp(attached));
      viewAttached := attached;
    }

    /** renderViewCallback: the view has drawn its oldest frame. */
    method RenderViewCallback()
      requires Valid()
      modifies this`waitingRenderFrames, queue`writable, queue`metas, queue.pool`pts, queue.pool`duration, queue.pool`serial, queue.pool`imageType, queue.pool`width, queue.pool`height, queue.pool`isEof
      ensures Valid() && Abs() == CompleteOne(old(Abs()))
    {
      CompletePreservesInv(Abs());
      ValidViewFrames();
      CompleteDraw();
    }
  }
}
