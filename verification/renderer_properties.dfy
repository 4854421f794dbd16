/**
 * What one delivery of the render message does, branch by branch, and
 * what the public entry points promise about the state machine.
 */
module RendererProperties {
  import opened Options
  import opened VideoFrames
  import opened SyncTiming
  import opened FrameQueue
  import opened RendererSpec
  import opened RendererInvariant

  /** No frame is twice on the readable side: the head is not among the frames behind it. */
  lemma HeadNotBehind<F>(w: Playback<F>)
    requires Conserved(w) && w.q.readable != []
    ensures w.q.readable[0] !in w.q.readable[1..]
  {
    var f := w.q.readable[0];
    AtMostOnce(w, multiset{}, f);
    assert w.q.readable == [f] + w.q.readable[1..];
    assert multiset(w.q.readable)[f] == 1 + multiset(w.q.readable[1..])[f];
  }

  /**
   * A head frame of an old epoch is never shown: whether the pass is
   * forced or not, it goes straight back to the writable side, nothing
   * handed to the view changes, and another pass is scheduled at once.
   * Only the unforced pass records it as the last frame.
   */
  lemma StaleHeadDiscarded<F>(w: Playback<F>, env: Env)
    requires w.state != Released && w.q.readable != []
    requires w.q.Meta(w.q.readable[0]).serial != env.producerSerial
    requires w.force || (env.hasMediaInfo && CanRender(w.state))
    ensures var r := Tick(w, env); var f := w.q.readable[0];
            && r.q.readable == w.q.readable[1..]
            && r.q.writable == w.q.writable + [f]
            && r.q.lent == w.q.lent
            && r.q.Meta(f).IsBlank()
            && r.pending == w.pending
            && r.scheduled == Some(0)
            && r.state == w.state && r.force == w.force && r.clock == w.clock && r.frameTimer == w.frameTimer
            && (w.force ==> r.last == w.last)
            && (!w.force ==> r.last == SnapshotOf(w.q.Meta(f)))
  {
    var f := w.q.readable[0];
    var w0 := w.(scheduled := None);
    if w.force {
      assert Tick(w, env) == ForceTick(w0, env);
      assert ForceTick(w0, env) == RequestRender(Recycle(w0.(q := Dequeue(w0.q)), f), 0);
    } else {
      assert Tick(w, env) == NormalTick(w0, env);
      assert NormalTick(w0, env) == RequestRender(Recycle(w0.(last := SnapshotOf(w.q.Meta(f)), q := Dequeue(w0.q)), f), 0);
    }
  }

  /** With the renderer paused and no forced render outstanding, a delivery only consumes the message. */
  lemma PausedTickIdle<F>(w: Playback<F>, env: Env)
    requires (w.state == Paused || w.state == Released) && !w.force
    ensures Tick(w, env) == w.(scheduled := None)
  {
    if w.state == Paused {
      assert Tick(w, env) == NormalTick(w.(scheduled := None), env);
    }
  }

  /** Nothing to show: a playing renderer starts waiting for the decoder, and schedules nothing. */
  lemma EmptyQueueStarves<F>(w: Playback<F>, env: Env)
    requires !w.force && env.hasMediaInfo && CanRender(w.state) && w.q.readable == []
    ensures Tick(w, env) == w.(scheduled := None, state := if w.state == Playing then WaitingReadableFrameBuffer else w.state)
  {
    assert Tick(w, env) == NormalTick(w.(scheduled := None), env);
  }

  /** A forced pass with nothing decoded yet keeps the request outstanding and changes nothing else. */
  lemma ForcedTickWaits<F>(w: Playback<F>, env: Env)
    requires w.force && w.state != Released && w.q.readable == []
    ensures Tick(w, env) == w.(scheduled := None)
  {
    assert Tick(w, env) == ForceTick(w.(scheduled := None), env);
  }

  /** While a forced render is outstanding, a decoded frame's arrival schedules a pass at once. */
  lemma ReadyWhileForced<F>(w: Playback<F>)
    requires w.force && w.state != Released
    ensures ReadableFrameReady(w) == w.(scheduled := Some(0))
  {
  }

  /**
   * A forced pass on a current head ends the forced request. An ordinary
   * frame sets the video clock and goes to the view (or back to the pool
   * when it cannot be drawn) without touching the pacing state; the
   * end-of-stream marker moves the renderer to Eof and is recycled.
   * Nothing is scheduled afterwards.
   */
  lemma ForcedTickShowsCurrent<F>(w: Playback<F>, env: Env)
    requires w.force && w.state != Released && w.q.readable != []
    requires w.q.Meta(w.q.readable[0]).serial == env.producerSerial
    ensures var r := Tick(w, env); var f := w.q.readable[0]; var m := w.q.Meta(f);
            && !r.force
            && r.scheduled == None
            && r.q.readable == w.q.readable[1..]
            && r.last == w.last && r.frameTimer == w.frameTimer
            && (!m.isEof ==> r.state == w.state && r.clock == Some(ClockStamp(m.pts, m.serial)))
            && (!m.isEof && w.viewAttached && PlanesReady(m) ==> r.pending == w.pending + [f] && r.q.writable == w.q.writable)
            && (!m.isEof && !(w.viewAttached && PlanesReady(m)) ==> r.pending == w.pending && r.q.writable == w.q.writable + [f])
            && (m.isEof ==> r.state == Eof && r.clock == w.clock && r.pending == w.pending && r.q.writable == w.q.writable + [f])
  {
    var f := w.q.readable[0];
    var m := w.q.Meta(f);
    var w0 := w.(scheduled := None);
    var taken := w0.(q := Dequeue(w0.q));
    assert Tick(w, env) == ForceTick(w0, env);
    if !m.isEof {
      assert ForceTick(w0, env) == RenderFrame(taken.(force := false, clock := Some(ClockStamp(m.pts, m.serial))), f);
    } else {
      assert ForceTick(w0, env) == Recycle(taken.(force := false, state := Eof), f);
    }
  }

  /** The frame timer the unforced pass measures from: restarted at now when the head opens a new epoch. */
  function TimerFor<F>(w: Playback<F>, env: Env, m: FrameMeta): int {
    if m.serial != w.last.serial then env.now else w.frameTimer
  }

  /**
   * The head frame is current but not yet due: the renderer resumes
   * playing, keeps every frame where it is and looks again after the
   * remaining time, but never later than one refresh period.
   */
  lemma TooEarlyWaits<F>(w: Playback<F>, env: Env)
    requires !w.force && env.hasMediaInfo && CanRender(w.state) && w.q.readable != []
    requires var m := w.q.Meta(w.q.readable[0]);
             m.serial == env.producerSerial && !m.isEof && env.now < TimerFor(w, env, m) + TargetDelay(w, env, m)
    ensures var r := Tick(w, env); var m := w.q.Meta(w.q.readable[0]);
            var due := TimerFor(w, env, m) + TargetDelay(w, env, m);
            && r.q == w.q && r.pending == w.pending
            && r.last == w.last && r.clock == w.clock && r.frameTimer == TimerFor(w, env, m)
            && r.state == Playing
            && r.scheduled == Some(Min(due - env.now, w.cfg.refreshRate))
            && (0 < w.cfg.refreshRate ==> 0 < r.scheduled.value <= w.cfg.refreshRate)
  {
    var f := w.q.readable[0];
    var m := w.q.Meta(f);
    var w0 := w.(scheduled := None);
    assert Tick(w, env) == NormalTick(w0, env);
    assert NormalTick(w0, env) == PresentOrWait(w0, env, f);
  }

  /** The late-successor check recycles the head exactly when it is late, and touches nothing else. */
  lemma DropLateOutcome<F>(w: Playback<F>, env: Env, f: F)
    ensures var r := DropLate(w, env);
            var dropped := w.q.readable != [] && LateFrame(w.last, w.frameTimer, env, w.q.Meta(w.q.readable[0]));
            && r == w.(q := r.q)
            && r.q.lent == w.q.lent
            && r.q.readable == (if dropped then w.q.readable[1..] else w.q.readable)
            && r.q.writable == w.q.writable + (if dropped then [w.q.readable[0]] else [])
            && (f !in w.q.readable ==> r.q.Meta(f) == w.q.Meta(f))
  {
    if w.q.readable != [] && LateFrame(w.last, w.frameTimer, env, w.q.Meta(w.q.readable[0])) {
      assert DropLate(w, env) == Recycle(w.(q := Dequeue(w.q)), w.q.readable[0]);
    }
  }

  /** renderVideoFrame hands f to the view exactly when there is a view and f's planes are there, and recycles it otherwise. */
  lemma RenderOutcome<F>(w: Playback<F>, f: F)
    ensures var r := RenderFrame(w, f);
            var shown := w.viewAttached && PlanesReady(w.q.Meta(f));
            && r == w.(pending := r.pending, q := r.q)
            && r.q.readable == w.q.readable && r.q.lent == w.q.lent
            && r.q.writable == w.q.writable + (if shown then [] else [f])
            && r.pending == w.pending + (if shown then [f] else [])
  {
  }

  /**
   * Committing the head frame f: it becomes the last frame and sets the
   * video clock, the timer advances, and a pass is scheduled at once.
   */
  lemma CommitPacing<F>(w: Playback<F>, env: Env, delay: int)
    requires w.q.readable != [] && CanRender(w.state)
    ensures var f := w.q.readable[0]; var m := w.q.Meta(f);
            var r := Commit(w, env, f, delay);
            && r.state == w.state && r.force == w.force
            && r.last == SnapshotOf(m)
            && r.frameTimer == AdvanceTimer(w.frameTimer, delay, env.now, w.cfg.sync.thresholdMax)
            && r.clock == Some(ClockStamp(m.pts, m.serial))
            && r.scheduled == Some(0)
  {
    var f := w.q.readable[0];
    var m := w.q.Meta(f);
    var t := AdvanceTimer(w.frameTimer, delay, env.now, w.cfg.sync.thresholdMax);
    var w1 := w.(q := Dequeue(w.q), last := SnapshotOf(m), frameTimer := t,
                 clock := Some(ClockStamp(m.pts, m.serial)));
    DropLateOutcome(w1, env, f);
    var w2 := DropLate(w1, env);
    RenderOutcome(w2, f);
    assert Commit(w, env, f, delay) == RequestRender(RenderFrame(w2, f), 0);
  }

  /**
   * Committing the head frame f moves frames as follows: a late successor
   * is recycled, and f goes to the view when it can be drawn and back to
   * the pool otherwise.
   */
  lemma CommitFrames<F>(w: Playback<F>, env: Env, delay: int)
    requires Conserved(w) && w.q.readable != []
    ensures var f := w.q.readable[0]; var m := w.q.Meta(f);
            var r := Commit(w, env, f, delay);
            var t := AdvanceTimer(w.frameTimer, delay, env.now, w.cfg.sync.thresholdMax);
            var dropped := |w.q.readable| >= 2 && LateFrame(SnapshotOf(m), t, env, w.q.Meta(w.q.readable[1]));
            var shown := w.viewAttached && PlanesReady(m);
            && r.q.lent == w.q.lent
            && r.q.readable == (if dropped then w.q.readable[2..] else w.q.readable[1..])
            && r.q.writable == w.q.writable + (if dropped then [w.q.readable[1]] else []) + (if shown then [] else [f])
            && r.pending == w.pending + (if shown then [f] else [])
  {
    var f := w.q.readable[0];
    var m := w.q.Meta(f);
    var t := AdvanceTimer(w.frameTimer, delay, env.now, w.cfg.sync.thresholdMax);
    var w1 := w.(q := Dequeue(w.q), last := SnapshotOf(m), frameTimer := t,
                 clock := Some(ClockStamp(m.pts, m.serial)));
    HeadNotBehind(w);
    assert w1.q.readable == w.q.readable[1..];
    var dropped := |w.q.readable| >= 2 && LateFrame(SnapshotOf(m), t, env, w.q.Meta(w.q.readable[1]));
    var shown := w.viewAttached && PlanesReady(m);
    var w2 := DropLate(w1, env);
    assert w2.q.Meta(f) == m && w2.viewAttached == w.viewAttached && w2.pending == w.pending && w2.q.lent == w.q.lent
        && w2.q.writable == w.q.writable + (if dropped then [w.q.readable[1]] else [])
        && w2.q.readable == (if dropped then w.q.readable[2..] else w.q.readable[1..]) by {
      DropLateOutcome(w1, env, f);
    }
    var r := RenderFrame(w2, f);
    assert r.q.writable == w2.q.writable + (if shown then [] else [f]) && r.q.readable == w2.q.readable
        && r.q.lent == w2.q.lent && r.pending == w2.pending + (if shown then [f] else []) by {
      RenderOutcome(w2, f);
    }
    assert Commit(w, env, f, delay) == RequestRender(r, 0);
    assert RequestRender(r, 0).q == r.q && RequestRender(r, 0).pending == r.pending;
  }

  /**
   * An unforced pass whose head frame is current, ordinary and due
   * commits it: the renderer plays on, the frame becomes the last frame
   * and sets the video clock, the timer advances from where the pass
   * measured it, a late successor is dropped, the frame goes to the view
   * (or back to the pool when it cannot be drawn), and the next pass is
   * scheduled at once.
   */
  lemma DueFrameCommitted<F>(w: Playback<F>, env: Env)
    requires Conserved(w) && !w.force && env.hasMediaInfo && CanRender(w.state) && w.q.readable != []
    requires var m := w.q.Meta(w.q.readable[0]);
             m.serial == env.producerSerial && !m.isEof && env.now >= TimerFor(w, env, m) + TargetDelay(w, env, m)
    ensures var r := Tick(w, env); var f := w.q.readable[0]; var m := w.q.Meta(f);
            var t := AdvanceTimer(TimerFor(w, env, m), TargetDelay(w, env, m), env.now, w.cfg.sync.thresholdMax);
            var dropped := |w.q.readable| >= 2 && LateFrame(SnapshotOf(m), t, env, w.q.Meta(w.q.readable[1]));
            var shown := w.viewAttached && PlanesReady(m);
            && r.state == Playing && !r.force
            && r.last == SnapshotOf(m) && r.frameTimer == t
            && r.clock == Some(ClockStamp(m.pts, m.serial))
            && r.scheduled == Some(0)
            && r.q.lent == w.q.lent
            && r.q.readable == (if dropped then w.q.readable[2..] else w.q.readable[1..])
            && r.q.writable == w.q.writable + (if dropped then [w.q.readable[1]] else []) + (if shown then [] else [f])
            && r.pending == w.pending + (if shown then [f] else [])
  {
    var f := w.q.readable[0];
    var m := w.q.Meta(f);
    var w0 := w.(scheduled := None);
    var w1 := w0.(state := Playing, frameTimer := TimerFor(w, env, m));
    var delay := TargetDelay(w, env, m);
    assert Tick(w, env) == NormalTick(w0, env);
    assert NormalTick(w0, env) == PresentOrWait(w0, env, f);
    assert PresentOrWait(w0, env, f) == Commit(w1, env, f, delay);
    CommitPacing(w1, env, delay);
    CommitFrames(w1, env, delay);
  }

  /**
   * An unforced pass whose head frame is the current end-of-stream
   * marker: the marker and every frame handed to the view go back to the
   * pool, the renderer moves to Eof, and nothing is scheduled.
   */
  lemma EofTickDrains<F>(w: Playback<F>, env: Env)
    requires !w.force && env.hasMediaInfo && CanRender(w.state) && w.q.readable != []
    requires var m := w.q.Meta(w.q.readable[0]); m.serial == env.producerSerial && m.isEof
    ensures var r := Tick(w, env); var f := w.q.readable[0];
            && r.state == Eof && !r.force && r.scheduled == None
            && r.pending == []
            && r.q.readable == w.q.readable[1..] && r.q.lent == w.q.lent
            && r.q.writable == w.q.writable + w.pending + [f]
            && r.q.Meta(f).IsBlank()
            && (forall g :: g in w.pending ==> r.q.Meta(g).IsBlank())
            && r.last == w.last && r.frameTimer == w.frameTimer && r.clock == w.clock
  {
    var f := w.q.readable[0];
    var w0 := w.(scheduled := None);
    var taken := w0.(q := Dequeue(w0.q));
    var drained := DrainPending(taken).(state := Eof);
    assert Tick(w, env) == NormalTick(w0, env);
    assert NormalTick(w0, env) == EofTick(w0);
    assert EofTick(w0) == Recycle(drained, f);
    DrainPendingOutcome(taken);
    DrainPendingBlanks(taken);
  }

  /**
   * Releasing a live renderer: the state becomes Released, the view is
   * detached, every frame handed to the view goes back to the pool in
   * order, and the looper's waiting message is dropped. Nothing else
   * changes: a forced render stays outstanding, and the pacing state, the
   * clock and every other frame's metadata are kept.
   */
  lemma ReleaseDrains<F>(w: Playback<F>)
    requires w.state != NotInit && w.state != Released
    ensures var r := Release(w);
            && r.state == Released && !r.viewAttached && r.scheduled == None
            && r.pending == []
            && r.q.writable == w.q.writable + w.pending
            && r.q.readable == w.q.readable && r.q.lent == w.q.lent
            && r.q.pool == w.q.pool
            && (forall g :: g in w.pending ==> r.q.Meta(g).IsBlank())
            && (forall g :: g !in w.pending ==> r.q.Meta(g) == w.q.Meta(g))
            // nothing else changes: renderForce, the pacing state, the clock and the configuration survive
            && r == w.(state := Released, viewAttached := false, scheduled := None, pending := [], q := r.q)
  {
    DrainPendingOutcome(w.(state := Released, viewAttached := false));
    DrainPendingBlanks(w.(state := Released, viewAttached := false));
  }

  /** After release, no entry point and no delivery changes the state, the view's frames, the pacing state or the clock. */
  lemma StepAfterRelease<F>(w: Playback<F>, op: Op<F>)
    requires w.state == Released && w.scheduled == None && w.pending == []
    ensures var r := Step(w, op);
            && r.state == Released && r.scheduled == None
            && r.pending == [] && r.force == w.force
            && r.last == w.last && r.frameTimer == w.frameTimer && r.clock == w.clock
  {
  }

  /** Released is terminal: whatever follows release, the renderer stays released, idle and without a frame for the view. */
  lemma {:induction false} ReleasedIsTerminal<F>(w: Playback<F>, ops: seq<Op<F>>)
    requires w.state == Released && w.scheduled == None && w.pending == []
    ensures var r := Run(w, ops);
            && r.state == Released && r.scheduled == None
            && r.pending == [] && r.force == w.force
            && r.last == w.last && r.frameTimer == w.frameTimer && r.clock == w.clock
    decreases |ops|
  {
    if ops != [] {
      StepAfterRelease(w, ops[0]);
      ReleasedIsTerminal(Step(w, ops[0]), ops[1..]);
    }
  }
}
