/**
 * A forced render that is already being delivered when release() runs.
 * release() quits the renderer's looper, which drops the messages still
 * waiting, but a message the looper has already taken is only blocked on
 * the renderer's lock; once release() leaves the lock, handleMessage
 * goes ahead. Its forced branch looks at no state, so an end-of-stream
 * marker at the head moves a released renderer to Eof.
 */
module RendererFindings {
  import opened Options
  import opened VideoFrames
  import opened SyncTiming
  import opened FrameQueue
  import opened RendererSpec
  import opened RendererProperties

  const Params := Config(SyncParams(40, 100, 100), 10, 8)

  /** Four pool frames, named 1 to 4, all empty and writable. */
  const Fresh := Pool([1, 2, 3, 4], [1, 2, 3, 4], [], [], map[1 := BlankFrame, 2 := BlankFrame, 3 := BlankFrame, 4 := BlankFrame])

  const NoPicture := DecodedFrame(0, 0, Unknown, 0, 0, 0, 0, 0, 0, 0)

  /** The render pass that runs once release() has let go of the lock. */
  const Late := Env(0, 0, AudioMaster, 0, 0, true)

  /** The end-of-stream marker of epoch 0 as the decoder hands it over. */
  const EofMarker := FrameMeta(0, 0, 0, Unknown, 0, 0, true, NoPlanes)

  /** The renderer right after its init block, over the fresh pool. */
  const Start := Init(Params, Fresh)
  /** The decoder has taken frame 1. */
  const Taken := Start.(q := Fresh.(writable := [2, 3, 4], lent := [1]))
  /** The decoder has handed frame 1 back as the end-of-stream marker of epoch 0. */
  const Decoded := Taken.(q := Taken.q.(lent := [], readable := [1], meta := Fresh.meta[1 := EofMarker]))
  /** A forced render is requested while paused (a seek): its message waits on the looper. */
  const Forced := Decoded.(force := true, scheduled := Some(0))
  /** release() has run; the looper had already taken the message, so quitting it drops nothing. */
  const Released_ := Forced.(state := Released, scheduled := None)

  /** The operations that lead there. */
  const Scenario: seq<Op<int>> := [TakeOp, FillOp(1, 0, true, NoPicture), ForceOp, ReleaseOp]

  /**
   * The scenario one operation at a time: dequeueWritable, the decoder's
   * labelling and enqueueReadable of the end-of-stream marker of serial 0
   * (VideoFrameQueue.kt lines 19-28), requestRenderForce while paused
   * (VideoRenderer.kt lines 374-385) and release (lines 387-405).
   */
  lemma ScenarioSteps()
    ensures Step(Start, TakeOp) == Taken
    ensures Step(Taken, FillOp(1, 0, true, NoPicture)) == Decoded
    ensures Step(Decoded, ForceOp) == Forced
    ensures Step(Forced, ReleaseOp) == Released_
  {
    assert Fresh.writable[1..] == [2, 3, 4];
    assert Remove([1], 1) == [];
    assert Filled(BlankFrame.(serial := 0, isEof := true), NoPicture) == EofMarker;
    assert DrainPending(Forced.(state := Released, viewAttached := false)) == Forced.(state := Released, viewAttached := false);
  }

  /** The scenario is a run of the renderer from its init block. */
  lemma ScenarioReachable()
    ensures Run(Start, Scenario) == Released_
    ensures Released_.state == Released && Released_.force && Released_.q.readable == [1]
    ensures Released_.q.Meta(1).isEof && Released_.q.Meta(1).serial == 0
  {
    ScenarioSteps();
    assert Run(Forced, [ReleaseOp]) == Run(Released_, []) == Released_;
    assert Run(Decoded, Scenario[2..]) == Run(Forced, [ReleaseOp]) by {
      assert Scenario[2..][1..] == [ReleaseOp];
    }
    assert Run(Taken, Scenario[1..]) == Run(Decoded, Scenario[2..]) by {
      assert Scenario[1..][1..] == Scenario[2..];
    }
  }

  /** As written, the late delivery takes a released renderer to Eof. */
  lemma ReleasedNotTerminalAsWritten()
    ensures Run(Start, Scenario).state == Released
    ensures TickAsWritten(Run(Start, Scenario), Late).state == Eof
  {
    ScenarioReachable();
    assert TickAsWritten(Released_, Late) == ForceTick(Released_, Late);
  }

  /** Corrected, the same delivery leaves the renderer released, and so does anything after it. */
  lemma ReleasedStaysReleased(ops: seq<Op<int>>)
    ensures Tick(Run(Start, Scenario), Late).state == Released
    ensures Run(Run(Start, Scenario), [TickOp(Late)] + ops).state == Released
  {
    ScenarioReachable();
    ReleasedIsTerminal(Released_, [TickOp(Late)] + ops);
  }
}
