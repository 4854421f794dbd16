/**
 * The frame-conservation invariant: whatever the renderer, its view and
 * the decoder do, every frame of the pool stays in exactly one place,
 * so no frame is ever shown while the decoder refills it and no frame
 * is lost or recycled twice.
 */
module RendererInvariant {
  import opened Options
  import opened VideoFrames
  import opened SyncTiming
  import opened FrameQueue
  import opened RendererSpec

  /** A frame occurs at most once in a sequence of distinct frames. */
  lemma {:induction false} DistinctCount<F>(s: seq<F>, x: F)
    requires Distinct(s)
    ensures multiset(s)[x] <= 1
  {
    if s != [] {
      assert s == [s[0]] + s[1..];
      assert Distinct(s[1..]) by {
        forall i, j | 0 <= i < j < |s[1..]| ensures s[1..][i] != s[1..][j] {
          assert s[1..][i] == s[i + 1] && s[1..][j] == s[j + 1];
        }
      }
      DistinctCount(s[1..], x);
      if s[0] == x {
        assert x !in s[1..] by {
          forall j | 0 <= j < |s[1..]| ensures s[1..][j] != x {
            assert s[1..][j] == s[j + 1];
          }
        }
      }
    }
  }

  /** In a conserved state each frame is in one place only: on one side, with the decoder, with the view or held. */
  lemma AtMostOnce<F>(w: Playback<F>, held: multiset<F>, f: F)
    requires HoldingAll(w, held)
    ensures multiset(w.q.writable)[f] + multiset(w.q.readable)[f] + multiset(w.q.lent)[f] + multiset(w.pending)[f] + held[f] <= 1
  {
    DistinctCount(w.q.pool, f);
    assert multiset(w.q.Sides() + w.pending) == multiset(w.q.writable) + multiset(w.q.readable) + multiset(w.q.lent) + multiset(w.pending);
  }

  /** A frame handed to the view belongs to the pool. */
  lemma PendingInPool<F>(w: Playback<F>, held: multiset<F>, g: F)
    requires HoldingAll(w, held) && g in w.pending
    ensures g in w.q.pool
  {
    var s := w.q.Sides() + w.pending;
    var i :| 0 <= i < |w.pending| && w.pending[i] == g;
    assert s[|w.q.Sides()| + i] == g;
    assert multiset(s)[g] > 0;
    assert multiset(w.q.pool)[g] > 0;
  }

  /** Taking the head of the readable side holds it in flight. */
  lemma TakeHead<F>(w: Playback<F>, held: multiset<F>)
    requires HoldingAll(w, held) && w.q.readable != []
    ensures HoldingAll(w.(q := Dequeue(w.q)), held + multiset{w.q.readable[0]})
  {
    var r := w.(q := Dequeue(w.q));
    DequeueConserves(w.q);
    assert multiset(r.q.Sides() + r.pending) + multiset{w.q.readable[0]} == multiset(w.q.Sides() + w.pending);
  }

  /** Recycling a held frame puts it back on the writable side. */
  lemma RecycleHeld<F>(w: Playback<F>, held: multiset<F>, f: F)
    requires HoldingAll(w, held + multiset{f})
    ensures HoldingAll(Recycle(w, f), held)
  {
    var r := Recycle(w, f);
    PutWritableConserves(w.q, f);
    assert f in w.q.pool by {
      assert multiset(w.q.pool)[f] > 0;
    }
    assert multiset(r.q.Sides() + r.pending) == multiset(w.q.Sides() + w.pending) + multiset{f};
  }

  /** Rendering a held frame hands it to the view or recycles it; either way it is no longer held. */
  lemma RenderHeld<F>(w: Playback<F>, held: multiset<F>, f: F)
    requires HoldingAll(w, held + multiset{f})
    ensures HoldingAll(RenderFrame(w, f), held)
  {
    if w.viewAttached && PlanesReady(w.q.Meta(f)) {
      var r := RenderFrame(w, f);
      assert r.q.Sides() + r.pending == (w.q.Sides() + w.pending) + [f];
    } else {
      RecycleHeld(w, held, f);
    }
  }

  /** Draining the view's frames recycles each of them once. */
  lemma {:induction false} DrainHeld<F>(w: Playback<F>, held: multiset<F>)
    requires HoldingAll(w, held)
    ensures HoldingAll(DrainPending(w), held)
    decreases |w.pending|
  {
    if w.pending != [] {
      CompleteOneConserves(w, held);
      DrainHeld(CompleteOne(w), held);
    }
  }

  /** The completion callback recycles the oldest handed-over frame. */
  lemma CompleteOneConserves<F>(w: Playback<F>, held: multiset<F>)
    requires HoldingAll(w, held)
    ensures HoldingAll(CompleteOne(w), held)
  {
    if w.pending != [] {
      var f := w.pending[0];
      var w1 := w.(pending := w.pending[1..]);
      assert CompleteOne(w) == Recycle(w1, f);
      PendingInPool(w, held, f);
      assert HoldingAll(w1, held + multiset{f}) by {
        assert multiset(w.pending) == multiset(w1.pending) + multiset{f} by {
          assert w.pending == [f] + w.pending[1..];
        }
        assert multiset(w.q.Sides() + w.pending) == multiset(w1.q.Sides() + w1.pending) + multiset{f};
      }
      RecycleHeld(w1, held, f);
    }
  }

  /** Dropping a late successor recycles it and keeps every other frame where it was. */
  lemma DropLateHeld<F>(w: Playback<F>, env: Env, held: multiset<F>)
    requires HoldingAll(w, held)
    ensures HoldingAll(DropLate(w, env), held)
  {
    if w.q.readable != [] {
      var g := w.q.readable[0];
      if LateFrame(w.last, w.frameTimer, env, w.q.Meta(g)) {
        TakeHead(w, held);
        RecycleHeld(w.(q := Dequeue(w.q)), held, g);
      }
    }
  }

  /** A forced pass moves at most the head frame, and only to the writable side or to the view. */
  lemma ForceTickConserves<F>(w: Playback<F>, env: Env)
    requires Conserved(w)
    ensures Conserved(ForceTick(w, env))
  {
    if w.q.readable != [] {
      var f := w.q.readable[0];
      var m := w.q.Meta(f);
      var taken := w.(q := Dequeue(w.q));
      TakeHead(w, multiset{});
      if m.serial != env.producerSerial {
        assert ForceTick(w, env) == RequestRender(Recycle(taken, f), 0);
        RecycleHeld(taken, multiset{}, f);
      } else if !m.isEof {
        assert ForceTick(w, env) == RenderFrame(taken.(force := false, clock := Some(ClockStamp(m.pts, m.serial))), f);
        RenderHeld(taken.(force := false, clock := Some(ClockStamp(m.pts, m.serial))), multiset{}, f);
      } else {
        assert ForceTick(w, env) == Recycle(taken.(force := false, state := Eof), f);
        RecycleHeld(taken.(force := false, state := Eof), multiset{}, f);
      }
    }
  }

  /** A committed frame is shown or recycled, and at most one successor is dropped. */
  lemma CommitConserves<F>(w: Playback<F>, env: Env, delay: int)
    requires Conserved(w) && w.q.readable != []
    ensures Conserved(Commit(w, env, w.q.readable[0], delay))
  {
    var f := w.q.readable[0];
    var m := w.q.Meta(f);
    var w1 := w.(q := Dequeue(w.q), last := SnapshotOf(m),
                 frameTimer := AdvanceTimer(w.frameTimer, delay, env.now, w.cfg.sync.thresholdMax),
                 clock := Some(ClockStamp(m.pts, m.serial)));
    TakeHead(w, multiset{});
    DropLateHeld(w1, env, multiset{} + multiset{f});
    RenderHeld(DropLate(w1, env), multiset{}, f);
  }

  /** The end-of-stream pass recycles the marker and every frame the view still had. */
  lemma EofTickConserves<F>(w: Playback<F>)
    requires Conserved(w)
    ensures Conserved(EofTick(w))
  {
    if w.q.readable != [] {
      var f := w.q.readable[0];
      var taken := w.(q := Dequeue(w.q));
      var drained := DrainPending(taken).(state := Eof);
      assert EofTick(w) == Recycle(drained, f);
      TakeHead(w, multiset{});
      DrainHeld(taken, multiset{} + multiset{f});
      assert HoldingAll(drained, multiset{} + multiset{f});
      RecycleHeld(drained, multiset{}, f);
    }
  }

  /** Waiting changes no frame; a commit shows or recycles the head. */
  lemma PresentOrWaitConserves<F>(w: Playback<F>, env: Env)
    requires Conserved(w) && w.q.readable != []
    ensures Conserved(PresentOrWait(w, env, w.q.readable[0]))
  {
    var f := w.q.readable[0];
    var m := w.q.Meta(f);
    var s := if w.state == WaitingReadableFrameBuffer || w.state == Eof then Playing else w.state;
    var timer := if m.serial != w.last.serial then env.now else w.frameTimer;
    var w1 := w.(state := s, frameTimer := timer);
    var delay := TargetDelay(w, env, m);
    if env.now >= timer + delay {
      assert PresentOrWait(w, env, f) == Commit(w1, env, f, delay);
      CommitConserves(w1, env, delay);
    } else {
      assert PresentOrWait(w, env, f) == RequestRender(w1, Min(timer + delay - env.now, w.cfg.refreshRate));
    }
  }

  /** A stale head is taken and recycled. */
  lemma DiscardConserves<F>(w: Playback<F>)
    requires Conserved(w) && w.q.readable != []
    ensures Conserved(Recycle(w.(last := SnapshotOf(w.q.Meta(w.q.readable[0])), q := Dequeue(w.q)), w.q.readable[0]))
  {
    var f := w.q.readable[0];
    TakeHead(w, multiset{});
    RecycleHeld(w.(last := SnapshotOf(w.q.Meta(f)), q := Dequeue(w.q)), multiset{}, f);
  }

  lemma NormalTickConserves<F>(w: Playback<F>, env: Env)
    requires Conserved(w)
    ensures Conserved(NormalTick(w, env))
  {
    if env.hasMediaInfo && CanRender(w.state) && w.q.readable != [] {
      var f := w.q.readable[0];
      var m := w.q.Meta(f);
      if m.serial != env.producerSerial {
        assert NormalTick(w, env) == RequestRender(Recycle(w.(last := SnapshotOf(m), q := Dequeue(w.q)), f), 0);
        DiscardConserves(w);
      } else if !m.isEof {
        assert NormalTick(w, env) == PresentOrWait(w, env, f);
        PresentOrWaitConserves(w, env);
      } else {
        assert NormalTick(w, env) == EofTick(w);
        EofTickConserves(w);
      }
    }
  }

  /** A forced pass leaves the state as it was or, on the end-of-stream marker, at Eof. */
  lemma ForceTickState<F>(w: Playback<F>, env: Env)
    ensures var r := ForceTick(w, env); r.state == w.state || r.state == Eof
  {
    if w.q.readable != [] {
      var f := w.q.readable[0];
      var m := w.q.Meta(f);
      var taken := w.(q := Dequeue(w.q));
      if m.serial != env.producerSerial {
        assert ForceTick(w, env) == RequestRender(Recycle(taken, f), 0);
      } else if !m.isEof {
        assert ForceTick(w, env) == RenderFrame(taken.(force := false, clock := Some(ClockStamp(m.pts, m.serial))), f);
      }
    }
  }

  /** Committing a frame does not change the renderer's state. */
  lemma CommitKeepsState<F>(w: Playback<F>, env: Env, f: F, delay: int)
    ensures Commit(w, env, f, delay).state == w.state
  {
    var m := w.q.Meta(f);
    var w1 := w.(q := Dequeue(w.q), last := SnapshotOf(m),
                 frameTimer := AdvanceTimer(w.frameTimer, delay, env.now, w.cfg.sync.thresholdMax),
                 clock := Some(ClockStamp(m.pts, m.serial)));
    var w2 := DropLate(w1, env);
    assert w2.state == w.state;
    assert RenderFrame(w2, f).state == w.state;
  }

  /** An ordinary pass only ever moves to Playing, WaitingReadableFrameBuffer or Eof. */
  lemma NormalTickState<F>(w: Playback<F>, env: Env)
    ensures var r := NormalTick(w, env);
            r.state == w.state || r.state == Playing || r.state == WaitingReadableFrameBuffer || r.state == Eof
  {
    if env.hasMediaInfo && CanRender(w.state) && w.q.readable != [] {
      var f := w.q.readable[0];
      var m := w.q.Meta(f);
      if m.serial != env.producerSerial {
        assert NormalTick(w, env) == RequestRender(Recycle(w.(last := SnapshotOf(m), q := Dequeue(w.q)), f), 0);
      } else if !m.isEof {
        assert NormalTick(w, env) == PresentOrWait(w, env, f);
        var s := if w.state == WaitingReadableFrameBuffer || w.state == Eof then Playing else w.state;
        var timer := if m.serial != w.last.serial then env.now else w.frameTimer;
        var w1 := w.(state := s, frameTimer := timer);
        var delay := TargetDelay(w, env, m);
        if env.now >= timer + delay {
          assert PresentOrWait(w, env, f) == Commit(w1, env, f, delay);
          CommitKeepsState(w1, env, f, delay);
        } else {
          assert PresentOrWait(w, env, f) == RequestRender(w1, Min(timer + delay - env.now, w.cfg.refreshRate));
        }
      } else {
        assert NormalTick(w, env) == EofTick(w);
      }
    }
  }

  /**
   * The handler as written loses and duplicates no frame either: the
   * missing check on Released changes the state, never where frames are.
   */
  lemma TickAsWrittenConserves<F>(w: Playback<F>, env: Env)
    requires Conserved(w)
    ensures Conserved(TickAsWritten(w, env))
  {
    var w0 := w.(scheduled := None);
    if w0.force {
      assert TickAsWritten(w, env) == ForceTick(w0, env);
      ForceTickConserves(w0, env);
    } else {
      assert TickAsWritten(w, env) == NormalTick(w0, env);
      NormalTickConserves(w0, env);
    }
  }

  /** A render pass never leaves NotInit behind, and the corrected pass never leaves Released. */
  lemma TickPreservesInv<F>(w: Playback<F>, env: Env)
    requires Inv(w)
    ensures Inv(Tick(w, env))
  {
    if w.state != Released {
      var w0 := w.(scheduled := None);
      if w0.force {
        assert Tick(w, env) == ForceTick(w0, env);
        ForceTickConserves(w0, env);
        ForceTickState(w0, env);
      } else {
        assert Tick(w, env) == NormalTick(w0, env);
        NormalTickConserves(w0, env);
        NormalTickState(w0, env);
      }
    }
  }

  /** The decoder's moves keep every frame in one place: it only refills a frame it holds. */
  lemma ProducerFillConserves<F>(w: Playback<F>, f: F, serial: int, isEof: bool, d: DecodedFrame)
    requires Conserved(w)
    ensures Conserved(ProducerFill(w, f, serial, isEof, d))
  {
    if f in w.q.lent {
      AtMostOnce(w, multiset{}, f);
      LabelKeeps(w.q, f, serial, isEof);
      PutReadableConserves(Label(w.q, f, serial, isEof), f, d);
    }
  }

  /** The entry points that only move the state machine or the schedule keep the frames where they are. */
  lemma PlayPreservesInv<F>(w: Playback<F>)
    requires Inv(w)
    ensures Inv(Play(w))
  {
    var r := Play(w);
    assert r.q == w.q && r.pending == w.pending;
  }

  lemma PausePreservesInv<F>(w: Playback<F>)
    requires Inv(w)
    ensures Inv(Pause(w))
  {
    var r := Pause(w);
    assert r.q == w.q && r.pending == w.pending;
  }

  lemma ReadyPreservesInv<F>(w: Playback<F>)
    requires Inv(w)
    ensures Inv(ReadableFrameReady(w))
  {
    var r := ReadableFrameReady(w);
    assert r.q == w.q && r.pending == w.pending;
  }

  lemma ForcePreservesInv<F>(w: Playback<F>)
    requires Inv(w)
    ensures Inv(RequestRenderForce(w))
  {
    var r := RequestRenderForce(w);
    assert r.q == w.q && r.pending == w.pending;
  }

  /** release recycles every frame the view had. */
  lemma ReleasePreservesInv<F>(w: Playback<F>)
    requires Inv(w)
    ensures Inv(Release(w))
  {
    if w.state != Released {
      DrainHeld(w.(state := Released, viewAttached := false), multiset{});
      DrainPendingOutcome(w.(state := Released, viewAttached := false));
    }
  }

  /** A drawn frame goes back to the pool. */
  lemma CompletePreservesInv<F>(w: Playback<F>)
    requires Inv(w)
    ensures Inv(CompleteOne(w))
  {
    CompleteOneConserves(w, multiset{});
  }

  lemma StepPreservesInv<F>(w: Playback<F>, op: Op<F>)
    requires Inv(w)
    ensures Inv(Step(w, op))
  {
    match op
    case TickOp(env) =>
      assert Step(w, op) == Tick(w, env);
      TickPreservesInv(w, env);
    case PlayOp =>
      assert Step(w, op) == Play(w);
      PlayPreservesInv(w);
    case PauseOp =>
      assert Step(w, op) == Pause(w);
      PausePreservesInv(w);
    case ReadyOp =>
      assert Step(w, op) == ReadableFrameReady(w);
      ReadyPreservesInv(w);
    case ForceOp =>
      assert Step(w, op) == RequestRenderForce(w);
      ForcePreservesInv(w);
    case ReleaseOp =>
      assert Step(w, op) == Release(w);
      ReleasePreservesInv(w);
    case AttachOp(a) =>
      assert Step(w, op) == AttachView(w, a);
    case CompleteOp =>
      assert Step(w, op) == CompleteOne(w);
      CompletePreservesInv(w);
    case TakeOp =>
      assert Step(w, op) == ProducerTake(w);
      TakeWritableConserves(w.q);
    case FillOp(f, serial, isEof, d) =>
      assert Step(w, op) == ProducerFill(w, f, serial, isEof, d);
      ProducerFillConserves(w, f, serial, isEof, d);
  }

  lemma {:induction false} RunPreservesInv<F>(w: Playback<F>, ops: seq<Op<F>>)
    requires Inv(w)
    ensures Inv(Run(w, ops))
    decreases |ops|
  {
    if ops != [] {
      StepPreservesInv(w, ops[0]);
      RunPreservesInv(Step(w, ops[0]), ops[1..]);
    }
  }

  /** In every reachable state the four places together hold exactly the pool's frames. */
  lemma SidesBounded<F>(w: Playback<F>)
    requires Inv(w)
    ensures |w.q.writable| + |w.q.readable| + |w.q.lent| + |w.pending| == MaxQueueSize
  {
    assert |multiset(w.q.Sides() + w.pending)| == |w.q.Sides() + w.pending|;
    assert |multiset(w.q.pool)| == |w.q.pool|;
  }
}
