# tMediaPlayer video renderer and video frame pool, in Dafny

This project models the part of tMediaPlayer that paces decoded video frames onto the screen. It covers two pieces.

- **The video renderer** (`VideoRenderer`). It has a state machine: NotInit, Paused, Playing, WaitingReadableFrameBuffer, Eof, Released. One delivery of its render message runs one of these branches:
  - a forced pass;
  - a pass that discards a frame of an old serial;
  - a pass that waits;
  - a pass that commits a frame, resyncs the frame timer and drops a late successor;
  - an end-of-stream pass that drains the frames the view has not drawn yet.

  It also has the public entry points (play, pause, readableFrameReady, requestRenderForce, release, attachPlayerView), renderVideoFrame and the view's completion callback. The pacing arithmetic (frameDuration, computeTargetDelay) is modelled as well.
- **The video frame pool** (`VideoFrameQueue`). It holds four frame buffers passed between the decoder and the renderer through a writable side and a readable side. It resets a frame when it goes back to the writable side. It fills a frame when the decoder hands it over, reallocating a plane only when its size changes.

The model has two layers.

- **Values.** `RendererSpec` describes the renderer as a value `Playback<F>`, generic over frame identity. It gives one function per entry point and per delivery of the render message, plus the decoder's two moves on the pool (`FrameQueue.Pool`).
  - `RendererInvariant` proves that every step keeps each pool frame in exactly one place: writable, readable, with the decoder, or handed to the view. It also proves that a released renderer stays idle.
  - `RendererProperties` states what each branch of a delivery does.
  - `SyncTiming` holds the pacing arithmetic.
- **Objects.** `VideoFrames.VideoFrame`, `FrameQueue.VideoFrameQueue` and `Renderer.VideoRenderer` are classes whose methods update frames, sides, deques and renderer fields in place. Each method is proved to move the object from one value to the one the value layer prescribes, so the value layer's invariant is the class invariant (`Valid()`).

Inputs the renderer reads from outside are parameters of a pass (`RendererSpec.Env`):
- the uptime clock;
- the packet queue's serial;
- the sync type;
- the video and master clocks;
- whether media info is loaded.

The player constants are a `Config`: SYNC_THRESHOLD_MIN, SYNC_THRESHOLD_MAX, SYNC_FRAMEDUP_THRESHOLD, VIDEO_REFRESH_RATE and VIDEO_EOF_MAX_CHECK_TIMES. Their definitions are not part of this model.

The render message on the renderer's looper is the field `scheduled`. It holds the delay of the single waiting message, because requestRender removes any earlier one before posting. A delivery (`TickOp`) may run even when `scheduled` is None. That is how the model covers a message the looper has already taken off its queue, which no later removeMessages or quit can cancel. How many frames the view draws during each end-of-stream check period is a parameter (`drawn`).

## Model

| member | source | states |
|---|---|---|
| VideoFrames.FrameMeta.Blank | tmediaplayer/src/main/java/com/tans/tmediaplayer/player/rwqueue/VideoFrameQueue.kt:84-93 | the reset clears pts, duration, serial, size, layout (Unknown) and the end-of-stream flag, and keeps the planes |
| VideoFrames.PlanesAfterFill | tmediaplayer/src/main/java/com/tans/tmediaplayer/player/rwqueue/VideoFrameQueue.kt:30-79 | Yuv420p fills y, u, v; Nv12 and Nv21 fill y and uv; Rgba fills rgba; Unknown fills none; every other plane is kept |
| VideoFrames.Filled | tmediaplayer/src/main/java/com/tans/tmediaplayer/player/rwqueue/VideoFrameQueue.kt:22-79 | pts and duration always come from the decoder; serial and isEof are never written; an end-of-stream frame keeps layout, size and planes; any other frame takes the decoder's layout and size, and its planes follow the layout |
| VideoFrames.PlaneFor | tmediaplayer/src/main/java/com/tans/tmediaplayer/player/rwqueue/VideoFrameQueue.kt:33-51 | the plane ends with the reported size; it is the old array exactly when that array already had that size, and otherwise it is a newly allocated array |
| VideoFrames.VideoFrame.constructor | tmediaplayer/src/main/java/com/tans/tmediaplayer/player/rwqueue/VideoFrameQueue.kt:10-13 | a freshly allocated frame has empty metadata and no planes |
| VideoFrames.VideoFrame.Reset | tmediaplayer/src/main/java/com/tans/tmediaplayer/player/rwqueue/VideoFrameQueue.kt:84-93 | the metadata becomes its blank form and every plane array is kept, by identity |
| VideoFrames.VideoFrame.Fill | tmediaplayer/src/main/java/com/tans/tmediaplayer/player/rwqueue/VideoFrameQueue.kt:22-79 | the frame's metadata becomes Filled of the old metadata; serial and isEof are unchanged; an end-of-stream frame keeps every plane; otherwise the layout's planes are refilled by size and the other planes are kept; every replaced plane is newly allocated |
| VideoFrames.VideoFrame.FillPlanes | tmediaplayer/src/main/java/com/tans/tmediaplayer/player/rwqueue/VideoFrameQueue.kt:30-79 | plane presence follows PlanesAfterFill; the layout's planes have the reported sizes (same array when the size matched, a newly allocated one otherwise); other planes are kept |
| SyncTiming.SnapshotOf | tmediaplayer/src/main/java/com/tans/tmediaplayer/player/renderer/VideoRenderer.kt:441-457 | LastRenderFrame(frame) copies the frame's pts, serial and duration |
| SyncTiming.FrameDuration | tmediaplayer/src/main/java/com/tans/tmediaplayer/player/renderer/VideoRenderer.kt:298-309 | 0 across a serial change; within a serial, the positive pts gap, or else the last frame's duration |
| SyncTiming.SyncThreshold | tmediaplayer/src/main/java/com/tans/tmediaplayer/player/renderer/VideoRenderer.kt:315 | the threshold is the delay clamped to [SYNC_THRESHOLD_MIN, SYNC_THRESHOLD_MAX], and equals the delay when the delay is inside that range |
| SyncTiming.ComputeTargetDelay | tmediaplayer/src/main/java/com/tans/tmediaplayer/player/renderer/VideoRenderer.kt:311-328 | no correction for VideoMaster or within the threshold; behind the master the wait is never negative and never grows; ahead of it, the wait never shrinks |
| SyncTiming.TargetDelayCorrection | tmediaplayer/src/main/java/com/tans/tmediaplayer/player/renderer/VideoRenderer.kt:313-324 | the four cases exactly: behind gives max(0, delay + diff); ahead with delay >= SYNC_FRAMEDUP_THRESHOLD gives delay + diff; ahead with a shorter delay gives 2 * delay; strictly within the threshold the delay is unchanged |
| SyncTiming.TargetDelayMonotone | tmediaplayer/src/main/java/com/tans/tmediaplayer/player/renderer/VideoRenderer.kt:311-328 | for a non-negative delay, the corrected wait never decreases as the video clock moves ahead |
| SyncTiming.TargetDelayExamples | tmediaplayer/src/main/java/com/tans/tmediaplayer/player/renderer/VideoRenderer.kt:315-324 | delay 40 with thresholds 10/100/50: diff +60 gives 80, diff -60 gives 0, diff +5 gives 40 |
| FrameQueue.TakeWritableConserves | tmediaplayer/src/main/java/com/tans/tmediaplayer/player/rwqueue/VideoFrameQueue.kt:6 | dequeueWritable moves the oldest writable frame to the decoder and loses no frame |
| FrameQueue.TakeWritable | tmediaplayer/src/main/java/com/tans/tmediaplayer/player/rwqueue/VideoFrameQueue.kt:6 | dequeueWritable of the base queue: the oldest writable frame goes to the decoder, if there is one (TakeWritableConserves) |
| FrameQueue.Label | tmediaplayer/src/main/java/com/tans/tmediaplayer/player/rwqueue/VideoFrameQueue.kt:19-21 | the decoder's own write of serial and isEof before enqueueReadable (LabelKeeps) |
| FrameQueue.PutReadable | tmediaplayer/src/main/java/com/tans/tmediaplayer/player/rwqueue/VideoFrameQueue.kt:22-82 | enqueueReadable: the decoder's frame is filled and appended to the readable side (PutReadableConserves) |
| FrameQueue.PeekReadable | tmediaplayer/src/main/java/com/tans/tmediaplayer/player/rwqueue/VideoFrameQueue.kt:6 | peekReadable of the base queue: the readable head, if any (VideoFrameQueue.PeekReadable) |
| FrameQueue.Dequeue | tmediaplayer/src/main/java/com/tans/tmediaplayer/player/rwqueue/VideoFrameQueue.kt:6 | dequeueReadable of the base queue: the readable head is removed (DequeueConserves) |
| FrameQueue.PutWritable | tmediaplayer/src/main/java/com/tans/tmediaplayer/player/rwqueue/VideoFrameQueue.kt:84-93 | enqueueWritable: the frame is reset and appended to the writable side (PutWritableConserves) |
| FrameQueue.LabelKeeps | tmediaplayer/src/main/java/com/tans/tmediaplayer/player/rwqueue/VideoFrameQueue.kt:19-21 | the decoder's own write of serial and isEof changes only those two fields of that frame |
| FrameQueue.PutReadableConserves | tmediaplayer/src/main/java/com/tans/tmediaplayer/player/rwqueue/VideoFrameQueue.kt:22-81 | enqueueReadable moves a frame from the decoder to the tail of the readable side, filled, and loses no frame |
| FrameQueue.DequeueConserves | tmediaplayer/src/main/java/com/tans/tmediaplayer/player/rwqueue/VideoFrameQueue.kt:6 | dequeueReadable removes exactly the head frame from the pool's sides |
| FrameQueue.PutWritableConserves | tmediaplayer/src/main/java/com/tans/tmediaplayer/player/rwqueue/VideoFrameQueue.kt:84-93 | enqueueWritable appends exactly that frame to the tail of the writable side, blank and with its planes kept; the readable side, the decoder's frames and every other frame's metadata are unchanged |
| FrameQueue.VideoFrameQueue.constructor | tmediaplayer/src/main/java/com/tans/tmediaplayer/player/rwqueue/VideoFrameQueue.kt:6-13 | a pool of maxQueueSize = 4 empty frames, all writable |
| FrameQueue.VideoFrameQueue.PeekReadable | tmediaplayer/src/main/java/com/tans/tmediaplayer/player/rwqueue/VideoFrameQueue.kt:6 | the oldest readable frame, or none when the readable side is empty |
| FrameQueue.VideoFrameQueue.DequeueReadable | tmediaplayer/src/main/java/com/tans/tmediaplayer/player/rwqueue/VideoFrameQueue.kt:6 | removes and returns the oldest readable frame (none on an empty side), and keeps the pool well formed |
| FrameQueue.VideoFrameQueue.DequeueWritable | tmediaplayer/src/main/java/com/tans/tmediaplayer/player/rwqueue/VideoFrameQueue.kt:6 | hands the oldest writable frame to the decoder (none on an empty side) |
| FrameQueue.VideoFrameQueue.EnqueueWritable | tmediaplayer/src/main/java/com/tans/tmediaplayer/player/rwqueue/VideoFrameQueue.kt:84-93 | the frame is reset and appended to the writable side, and its plane arrays are kept |
| FrameQueue.VideoFrameQueue.LabelLent | tmediaplayer/src/main/java/com/tans/tmediaplayer/player/rwqueue/VideoFrameQueue.kt:19-21 | the decoder sets serial and isEof on a frame it holds |
| FrameQueue.VideoFrameQueue.EnqueueReadable | tmediaplayer/src/main/java/com/tans/tmediaplayer/player/rwqueue/VideoFrameQueue.kt:22-82 | the frame is filled and appended to the readable side; serial and isEof are untouched; planes are kept for an end-of-stream frame and otherwise refilled by layout and size |
| FrameQueue.VideoFrameQueue.FillLent | tmediaplayer/src/main/java/com/tans/tmediaplayer/player/rwqueue/VideoFrameQueue.kt:23-79 | the in-place fill of a frame the decoder holds, with the same plane guarantees |
| RendererSpec.Post | tmediaplayer/src/main/java/com/tans/tmediaplayer/player/renderer/VideoRenderer.kt:414-422 | re-posting the render message sets the scheduled delay to d on a live looper; after release (looper quit) nothing changes |
| RendererSpec.RequestRender | tmediaplayer/src/main/java/com/tans/tmediaplayer/player/renderer/VideoRenderer.kt:414-422 | requestRender posts delay d exactly when the state is Playing, Eof or WaitingReadableFrameBuffer or a forced render is outstanding (and the looper is live); otherwise nothing changes |
| RendererSpec.CompleteThenDrain | tmediaplayer/src/main/java/com/tans/tmediaplayer/player/renderer/VideoRenderer.kt:429-436 | one view completion before the drain leaves the drained outcome unchanged |
| RendererSpec.DrainPendingOutcome | tmediaplayer/src/main/java/com/tans/tmediaplayer/player/renderer/VideoRenderer.kt:185-190 | draining waitingRenderFrames empties it onto the tail of the writable side, oldest first, and changes nothing else |
| RendererSpec.DrainPendingBlanks | tmediaplayer/src/main/java/com/tans/tmediaplayer/player/renderer/VideoRenderer.kt:185-190 | every drained frame comes back blank; every other frame keeps its metadata |
| RendererSpec.AdvanceTimer | tmediaplayer/src/main/java/com/tans/tmediaplayer/player/renderer/VideoRenderer.kt:140-145 | after a commit the timer becomes now exactly when delay > 0 and now - (frameTimer + delay) > SYNC_THRESHOLD_MAX, and frameTimer + delay otherwise |
| RendererSpec.Play | tmediaplayer/src/main/java/com/tans/tmediaplayer/player/renderer/VideoRenderer.kt:340-352 | only Paused or Eof moves to Playing, and a pass is then scheduled at once; any other state is left unchanged |
| RendererSpec.Pause | tmediaplayer/src/main/java/com/tans/tmediaplayer/player/renderer/VideoRenderer.kt:354-363 | only Playing, Eof or WaitingReadableFrameBuffer moves to Paused; any other state is left unchanged |
| RendererSpec.ReadableFrameReady | tmediaplayer/src/main/java/com/tans/tmediaplayer/player/renderer/VideoRenderer.kt:365-372 | schedules a pass at once when waiting for frames or while a forced render is outstanding, and otherwise does nothing |
| RendererSpec.RequestRenderForce | tmediaplayer/src/main/java/com/tans/tmediaplayer/player/renderer/VideoRenderer.kt:374-385 | a live renderer without a forced render outstanding gets one, scheduled at once, in any state; otherwise nothing changes |
| RendererSpec.TickAsWritten | tmediaplayer/src/main/java/com/tans/tmediaplayer/player/renderer/VideoRenderer.kt:66-212 | handleMessage as written: the message is consumed, then the forced branch runs when renderForce is set, else the unforced branch; conservation is TickAsWrittenConserves, the outcome on a released renderer is ReleasedNotTerminalAsWritten |
| RendererSpec.Tick | tmediaplayer/src/main/java/com/tans/tmediaplayer/player/renderer/VideoRenderer.kt:66-212 | the corrected delivery: as written, except that a released renderer only consumes the message; TickPreservesInv, ReleasedIsTerminal and the RendererProperties lemmas state its outcomes |
| RendererSpec.ForceTick | tmediaplayer/src/main/java/com/tans/tmediaplayer/player/renderer/VideoRenderer.kt:71-94 | the forced branch: nothing decoded leaves everything as it was; an old-serial head is recycled and a pass rescheduled; a current head goes to ForceShow (ForcedTickWaits, StaleHeadDiscarded, ForcedTickShowsCurrent, ForceTickConserves) |
| RendererSpec.ForceShow | tmediaplayer/src/main/java/com/tans/tmediaplayer/player/renderer/VideoRenderer.kt:81-91 | a forced current frame clears renderForce; an ordinary frame sets the video clock and goes to renderVideoFrame, the end-of-stream marker sets Eof and is recycled (ForcedTickShowsCurrent) |
| RendererSpec.NormalTick | tmediaplayer/src/main/java/com/tans/tmediaplayer/player/renderer/VideoRenderer.kt:95-207 | the unforced branch: no media info or a non-render state does nothing; an empty queue starves; an old-serial head is discarded and recorded; an ordinary head is presented or waited for; the end-of-stream head ends the stream (NormalTickState, NormalTickConserves, EmptyQueueStarves, StaleHeadDiscarded, TooEarlyWaits, DueFrameCommitted, EofTickDrains) |
| RendererSpec.EofTick | tmediaplayer/src/main/java/com/tans/tmediaplayer/player/renderer/VideoRenderer.kt:169-192 | the end-of-stream head is dequeued, the view's frames are drained, the state becomes Eof and the marker is recycled (EofTickDrains, EofTickConserves) |
| RendererSpec.PresentOrWait | tmediaplayer/src/main/java/com/tans/tmediaplayer/player/renderer/VideoRenderer.kt:113-167 | resume, compute the target delay, then wait min(remaining, VIDEO_REFRESH_RATE) or commit (TooEarlyWaits, DueFrameCommitted, PresentOrWaitConserves) |
| RendererSpec.TakeDue | tmediaplayer/src/main/java/com/tans/tmediaplayer/player/renderer/VideoRenderer.kt:131-147 | the due head is dequeued, recorded as lastRenderFrame, the timer advanced and the video clock set (CommitPacing) |
| RendererSpec.Commit | tmediaplayer/src/main/java/com/tans/tmediaplayer/player/renderer/VideoRenderer.kt:131-167 | take the due head, drop a late successor, render the head, schedule at once (CommitPacing, CommitFrames, CommitConserves) |
| RendererSpec.DropLate | tmediaplayer/src/main/java/com/tans/tmediaplayer/player/renderer/VideoRenderer.kt:149-164 | the successor is dequeued and recycled when it is late (DropLateOutcome, DropLateHeld) |
| RendererSpec.Resume | tmediaplayer/src/main/java/com/tans/tmediaplayer/player/renderer/VideoRenderer.kt:114-121 | Waiting or Eof becomes Playing; the frame timer restarts at now on a serial change (TooEarlyWaits, DueFrameCommitted) |
| RendererSpec.RenderFrame | tmediaplayer/src/main/java/com/tans/tmediaplayer/player/renderer/VideoRenderer.kt:214-296 | renderVideoFrame: to the view's deque when a view is attached and the layout's planes are present, else recycled (RenderOutcome, RenderHeld) |
| RendererSpec.CompleteOne | tmediaplayer/src/main/java/com/tans/tmediaplayer/player/renderer/VideoRenderer.kt:429-436 | renderViewCallback: the oldest pending frame, if any, is recycled (CompleteOneConserves, CompletePreservesInv) |
| RendererSpec.DrainPending | tmediaplayer/src/main/java/com/tans/tmediaplayer/player/renderer/VideoRenderer.kt:185-190 | the drain loop: pending frames are recycled oldest first until none is left (DrainPendingOutcome, DrainPendingBlanks, DrainHeld) |
| RendererSpec.Release | tmediaplayer/src/main/java/com/tans/tmediaplayer/player/renderer/VideoRenderer.kt:387-405 | release of a live renderer: Released, view detached, pending drained, waiting message dropped (ReleaseDrains, ReleasePreservesInv); from NotInit or Released it changes nothing |
| RendererSpec.AttachView | tmediaplayer/src/main/java/com/tans/tmediaplayer/player/renderer/VideoRenderer.kt:408-410 | attachPlayerView sets or clears the view in any state (StepPreservesInv) |
| RendererInvariant.AtMostOnce | tmediaplayer/src/main/java/com/tans/tmediaplayer/player/renderer/VideoRenderer.kt:56-58 | in a conserved state each frame is in at most one place: writable, readable, with the decoder, with the view, or in flight |
| RendererInvariant.PendingInPool | tmediaplayer/src/main/java/com/tans/tmediaplayer/player/renderer/VideoRenderer.kt:56-58 | every frame handed to the view belongs to the pool |
| RendererInvariant.TakeHead | tmediaplayer/src/main/java/com/tans/tmediaplayer/player/renderer/VideoRenderer.kt:72 | dequeuing the readable head puts it in flight |
| RendererInvariant.RecycleHeld | tmediaplayer/src/main/java/com/tans/tmediaplayer/player/renderer/VideoRenderer.kt:424-427 | enqueueWriteableFrame puts a frame in flight back on the writable side |
| RendererInvariant.RenderHeld | tmediaplayer/src/main/java/com/tans/tmediaplayer/player/renderer/VideoRenderer.kt:214-296 | renderVideoFrame hands a frame in flight to the view or recycles it |
| RendererInvariant.DrainHeld | tmediaplayer/src/main/java/com/tans/tmediaplayer/player/renderer/VideoRenderer.kt:185-190 | draining the view's frames keeps every frame in one place |
| RendererInvariant.CompleteOneConserves | tmediaplayer/src/main/java/com/tans/tmediaplayer/player/renderer/VideoRenderer.kt:429-436 | the completion callback keeps every frame in one place |
| RendererInvariant.DropLateHeld | tmediaplayer/src/main/java/com/tans/tmediaplayer/player/renderer/VideoRenderer.kt:149-164 | dropping a late successor keeps every frame in one place |
| RendererInvariant.ForceTickConserves | tmediaplayer/src/main/java/com/tans/tmediaplayer/player/renderer/VideoRenderer.kt:71-94 | the forced branch keeps every frame in one place |
| RendererInvariant.CommitConserves | tmediaplayer/src/main/java/com/tans/tmediaplayer/player/renderer/VideoRenderer.kt:131-167 | a commit keeps every frame in one place |
| RendererInvariant.EofTickConserves | tmediaplayer/src/main/java/com/tans/tmediaplayer/player/renderer/VideoRenderer.kt:169-192 | the end-of-stream branch keeps every frame in one place |
| RendererInvariant.PresentOrWaitConserves | tmediaplayer/src/main/java/com/tans/tmediaplayer/player/renderer/VideoRenderer.kt:113-167 | waiting or committing keeps every frame in one place |
| RendererInvariant.DiscardConserves | tmediaplayer/src/main/java/com/tans/tmediaplayer/player/renderer/VideoRenderer.kt:101-111 | discarding a stale head keeps every frame in one place |
| RendererInvariant.NormalTickConserves | tmediaplayer/src/main/java/com/tans/tmediaplayer/player/renderer/VideoRenderer.kt:96-207 | the unforced branch keeps every frame in one place |
| RendererInvariant.ForceTickState | tmediaplayer/src/main/java/com/tans/tmediaplayer/player/renderer/VideoRenderer.kt:71-94 | a forced pass leaves the state as it was, or moves it to Eof |
| RendererInvariant.CommitKeepsState | tmediaplayer/src/main/java/com/tans/tmediaplayer/player/renderer/VideoRenderer.kt:131-167 | committing a frame does not change the renderer state |
| RendererInvariant.NormalTickState | tmediaplayer/src/main/java/com/tans/tmediaplayer/player/renderer/VideoRenderer.kt:96-207 | the unforced pass leaves the state unchanged or moves it only to Playing, WaitingReadableFrameBuffer or Eof |
| RendererInvariant.TickPreservesInv | tmediaplayer/src/main/java/com/tans/tmediaplayer/player/renderer/VideoRenderer.kt:66-212 | a delivery of the render message keeps every frame in one place, and keeps a released renderer released with nothing handed to the view |
| RendererInvariant.TickAsWrittenConserves | tmediaplayer/src/main/java/com/tans/tmediaplayer/player/renderer/VideoRenderer.kt:66-212 | the handler as written, without the check on Released, also keeps every frame in one place |
| RendererInvariant.ProducerFillConserves | tmediaplayer/src/main/java/com/tans/tmediaplayer/player/rwqueue/VideoFrameQueue.kt:22-82 | the decoder's fill keeps every frame in one place |
| RendererInvariant.PlayPreservesInv | tmediaplayer/src/main/java/com/tans/tmediaplayer/player/renderer/VideoRenderer.kt:340-352 | play keeps the invariant |
| RendererInvariant.PausePreservesInv | tmediaplayer/src/main/java/com/tans/tmediaplayer/player/renderer/VideoRenderer.kt:354-363 | pause keeps the invariant |
| RendererInvariant.ReadyPreservesInv | tmediaplayer/src/main/java/com/tans/tmediaplayer/player/renderer/VideoRenderer.kt:365-372 | readableFrameReady keeps the invariant |
| RendererInvariant.ForcePreservesInv | tmediaplayer/src/main/java/com/tans/tmediaplayer/player/renderer/VideoRenderer.kt:374-385 | requestRenderForce keeps the invariant |
| RendererInvariant.ReleasePreservesInv | tmediaplayer/src/main/java/com/tans/tmediaplayer/player/renderer/VideoRenderer.kt:387-405 | release keeps the invariant |
| RendererInvariant.CompletePreservesInv | tmediaplayer/src/main/java/com/tans/tmediaplayer/player/renderer/VideoRenderer.kt:429-436 | renderViewCallback keeps the invariant |
| RendererInvariant.StepPreservesInv | tmediaplayer/src/main/java/com/tans/tmediaplayer/player/renderer/VideoRenderer.kt:340-436 | every entry point, every delivery, the view callback and the decoder's moves keep the invariant |
| RendererInvariant.RunPreservesInv | tmediaplayer/src/main/java/com/tans/tmediaplayer/player/renderer/VideoRenderer.kt:340-436 | the invariant holds after any sequence of them |
| RendererInvariant.SidesBounded | tmediaplayer/src/main/java/com/tans/tmediaplayer/player/rwqueue/VideoFrameQueue.kt:8 | in every reachable state the writable, readable, decoder and view frames together number exactly maxQueueSize |
| RendererProperties.HeadNotBehind | tmediaplayer/src/main/java/com/tans/tmediaplayer/player/renderer/VideoRenderer.kt:149-164 | the readable head is not also among the frames behind it |
| RendererProperties.StaleHeadDiscarded | tmediaplayer/src/main/java/com/tans/tmediaplayer/player/renderer/VideoRenderer.kt:75-80 | a head frame of an old serial is recycled, never handed to the view, and a pass is rescheduled, in the forced branch and in the normal branch; only the normal branch records it as lastRenderFrame (lines 101-111) |
| RendererProperties.PausedTickIdle | tmediaplayer/src/main/java/com/tans/tmediaplayer/player/renderer/VideoRenderer.kt:96-98 | while paused (or released) with no forced render, a delivery does nothing but consume the message |
| RendererProperties.EmptyQueueStarves | tmediaplayer/src/main/java/com/tans/tmediaplayer/player/renderer/VideoRenderer.kt:201-206 | an empty readable side moves Playing to WaitingReadableFrameBuffer and schedules nothing |
| RendererProperties.ForcedTickWaits | tmediaplayer/src/main/java/com/tans/tmediaplayer/player/renderer/VideoRenderer.kt:92-94 | a forced pass with nothing decoded keeps the request outstanding and changes nothing else |
| RendererProperties.ReadyWhileForced | tmediaplayer/src/main/java/com/tans/tmediaplayer/player/renderer/VideoRenderer.kt:365-372 | with a forced render outstanding, a decoded frame schedules a pass at once |
| RendererProperties.ForcedTickShowsCurrent | tmediaplayer/src/main/java/com/tans/tmediaplayer/player/renderer/VideoRenderer.kt:81-91 | a forced pass on a current head clears the force flag; an ordinary frame sets the video clock and goes to the view or back to the pool; the end-of-stream marker sets Eof and is recycled |
| RendererProperties.TooEarlyWaits | tmediaplayer/src/main/java/com/tans/tmediaplayer/player/renderer/VideoRenderer.kt:113-130 | too early: no frame moves, the state becomes Playing, the timer restarts on a new serial, and the next pass comes after min(frameTimer + delay - now, VIDEO_REFRESH_RATE) |
| RendererProperties.DropLateOutcome | tmediaplayer/src/main/java/com/tans/tmediaplayer/player/renderer/VideoRenderer.kt:149-164 | the successor is recycled exactly when it is an ordinary frame, the master is not the video, and its due time has passed |
| RendererProperties.RenderOutcome | tmediaplayer/src/main/java/com/tans/tmediaplayer/player/renderer/VideoRenderer.kt:214-296 | renderVideoFrame puts the frame on the pending deque when a view is attached and its layout's planes are present, and on the writable side otherwise, never both |
| RendererProperties.CommitPacing | tmediaplayer/src/main/java/com/tans/tmediaplayer/player/renderer/VideoRenderer.kt:140-147 | a commit records the frame as lastRenderFrame, advances or resyncs the timer, sets the video clock and schedules at once |
| RendererProperties.CommitFrames | tmediaplayer/src/main/java/com/tans/tmediaplayer/player/renderer/VideoRenderer.kt:131-167 | a commit takes the head, drops at most the late successor, and hands the head to the view or back to the pool |
| RendererProperties.DueFrameCommitted | tmediaplayer/src/main/java/com/tans/tmediaplayer/player/renderer/VideoRenderer.kt:113-167 | a due, current, ordinary head is committed: the state becomes Playing, with the pacing, clock, frame movements and schedule stated exactly |
| RendererProperties.EofTickDrains | tmediaplayer/src/main/java/com/tans/tmediaplayer/player/renderer/VideoRenderer.kt:169-192 | an end-of-stream head is consumed, every pending frame and the marker go back to writable, blank, the state becomes Eof, and nothing is scheduled |
| RendererProperties.ReleaseDrains | tmediaplayer/src/main/java/com/tans/tmediaplayer/player/renderer/VideoRenderer.kt:387-405 | release from a live state sets Released, detaches the view, returns every pending frame to the writable side in order and blank, and drops the waiting message; nothing else changes, so renderForce, lastRenderFrame, frameTimer, the clock, the readable and decoder sides and every other frame's metadata are kept |
| RendererProperties.StepAfterRelease | tmediaplayer/src/main/java/com/tans/tmediaplayer/player/renderer/VideoRenderer.kt:387-405 | after release no operation changes the state, the view's frames, the pacing state or the clock |
| RendererProperties.ReleasedIsTerminal | tmediaplayer/src/main/java/com/tans/tmediaplayer/player/renderer/VideoRenderer.kt:387-405 | the same holds after any sequence of operations |
| RendererFindings.ScenarioSteps | tmediaplayer/src/main/java/com/tans/tmediaplayer/player/renderer/VideoRenderer.kt:374-405 | the steps of the scenario: the decoder takes and fills the end-of-stream marker, a forced render is requested, release runs |
| RendererFindings.ScenarioReachable | tmediaplayer/src/main/java/com/tans/tmediaplayer/player/renderer/VideoRenderer.kt:374-405 | the released state with a forced render outstanding and the marker at the head is reachable from the init block |
| RendererFindings.ReleasedNotTerminalAsWritten | tmediaplayer/src/main/java/com/tans/tmediaplayer/player/renderer/VideoRenderer.kt:71-91 | as written, the delivery already taken by the looper moves that released renderer to Eof |
| RendererFindings.ReleasedStaysReleased | tmediaplayer/src/main/java/com/tans/tmediaplayer/player/renderer/VideoRenderer.kt:387-405 | with the state check, that delivery and anything after it leave the renderer released |
| Renderer.VideoRenderer.constructor | tmediaplayer/src/main/java/com/tans/tmediaplayer/player/renderer/VideoRenderer.kt:332-338 | the renderer starts Paused, nothing shown, nothing scheduled, no view, over a pool whose frames are each in one place |
| Renderer.VideoRenderer.Post | tmediaplayer/src/main/java/com/tans/tmediaplayer/player/renderer/VideoRenderer.kt:417-418 | the one waiting render message now fires after the delay; nothing else changes |
| Renderer.VideoRenderer.RequestRender | tmediaplayer/src/main/java/com/tans/tmediaplayer/player/renderer/VideoRenderer.kt:414-422 | proved equal to RendererSpec.RequestRender |
| Renderer.VideoRenderer.EnqueueWriteableFrame | tmediaplayer/src/main/java/com/tans/tmediaplayer/player/renderer/VideoRenderer.kt:424-427 | proved equal to recycling the frame into the pool |
| Renderer.VideoRenderer.RenderVideoFrame | tmediaplayer/src/main/java/com/tans/tmediaplayer/player/renderer/VideoRenderer.kt:214-296 | proved equal to RendererSpec.RenderFrame (see RenderOutcome) |
| Renderer.VideoRenderer.CompleteDraw | tmediaplayer/src/main/java/com/tans/tmediaplayer/player/renderer/VideoRenderer.kt:430-435 | the oldest pending frame goes back to the pool |
| Renderer.VideoRenderer.DrainWaiting | tmediaplayer/src/main/java/com/tans/tmediaplayer/player/renderer/VideoRenderer.kt:185-190 | the loop ends with the drained state of RendererSpec.DrainPending |
| Renderer.VideoRenderer.ViewDraws | tmediaplayer/src/main/java/com/tans/tmediaplayer/player/renderer/VideoRenderer.kt:429-436 | completions during a sleep leave the drained outcome unchanged and never grow the deque |
| Renderer.VideoRenderer.WaitForView | tmediaplayer/src/main/java/com/tans/tmediaplayer/player/renderer/VideoRenderer.kt:171-184 | the bounded wait: at most max(1, VIDEO_EOF_MAX_CHECK_TIMES) periods, none when nothing is pending, and it stops early only once the view has drawn everything |
| Renderer.VideoRenderer.ForceRender | tmediaplayer/src/main/java/com/tans/tmediaplayer/player/renderer/VideoRenderer.kt:71-94 | the forced branch, proved equal to RendererSpec.ForceTick |
| Renderer.VideoRenderer.ForceShowFrame | tmediaplayer/src/main/java/com/tans/tmediaplayer/player/renderer/VideoRenderer.kt:81-91 | proved equal to RendererSpec.ForceShow |
| Renderer.VideoRenderer.DropLateSuccessor | tmediaplayer/src/main/java/com/tans/tmediaplayer/player/renderer/VideoRenderer.kt:149-164 | proved equal to RendererSpec.DropLate (see DropLateOutcome) |
| Renderer.VideoRenderer.CommitFrame | tmediaplayer/src/main/java/com/tans/tmediaplayer/player/renderer/VideoRenderer.kt:131-167 | proved equal to RendererSpec.Commit (see CommitPacing, CommitFrames) |
| Renderer.VideoRenderer.TakeDueFrame | tmediaplayer/src/main/java/com/tans/tmediaplayer/player/renderer/VideoRenderer.kt:131-147 | proved equal to RendererSpec.TakeDue |
| Renderer.VideoRenderer.PresentOrWaitFrame | tmediaplayer/src/main/java/com/tans/tmediaplayer/player/renderer/VideoRenderer.kt:113-167 | proved equal to RendererSpec.PresentOrWait (see TooEarlyWaits, DueFrameCommitted) |
| Renderer.VideoRenderer.ResumeFor | tmediaplayer/src/main/java/com/tans/tmediaplayer/player/renderer/VideoRenderer.kt:114-121 | proved equal to RendererSpec.Resume |
| Renderer.VideoRenderer.EndOfStream | tmediaplayer/src/main/java/com/tans/tmediaplayer/player/renderer/VideoRenderer.kt:169-192 | proved equal to RendererSpec.EofTick (see EofTickDrains), with at most max(1, VIDEO_EOF_MAX_CHECK_TIMES) check periods |
| Renderer.VideoRenderer.FinishView | tmediaplayer/src/main/java/com/tans/tmediaplayer/player/renderer/VideoRenderer.kt:171-190 | every frame the view had is back in the pool, however many it drew while waiting |
| Renderer.VideoRenderer.DiscardStale | tmediaplayer/src/main/java/com/tans/tmediaplayer/player/renderer/VideoRenderer.kt:101-111 | the stale head is recorded as lastRenderFrame, recycled and a pass rescheduled |
| Renderer.VideoRenderer.RenderPass | tmediaplayer/src/main/java/com/tans/tmediaplayer/player/renderer/VideoRenderer.kt:95-207 | the unforced branch, proved equal to RendererSpec.NormalTick |
| Renderer.VideoRenderer.HandleMessage | tmediaplayer/src/main/java/com/tans/tmediaplayer/player/renderer/VideoRenderer.kt:66-212 | keeps the class invariant, proved equal to RendererSpec.Tick |
| Renderer.VideoRenderer.Deliver | tmediaplayer/src/main/java/com/tans/tmediaplayer/player/renderer/VideoRenderer.kt:68-209 | the body of handleMessage with a check on Released added first (see Findings), proved equal to RendererSpec.Tick |
| Renderer.VideoRenderer.Play | tmediaplayer/src/main/java/com/tans/tmediaplayer/player/renderer/VideoRenderer.kt:340-352 | keeps the class invariant, proved equal to RendererSpec.Play |
| Renderer.VideoRenderer.Pause | tmediaplayer/src/main/java/com/tans/tmediaplayer/player/renderer/VideoRenderer.kt:354-363 | keeps the class invariant, proved equal to RendererSpec.Pause |
| Renderer.VideoRenderer.ReadableFrameReady | tmediaplayer/src/main/java/com/tans/tmediaplayer/player/renderer/VideoRenderer.kt:365-372 | keeps the class invariant, proved equal to RendererSpec.ReadableFrameReady |
| Renderer.VideoRenderer.RequestRenderForce | tmediaplayer/src/main/java/com/tans/tmediaplayer/player/renderer/VideoRenderer.kt:374-385 | keeps the class invariant, proved equal to RendererSpec.RequestRenderForce |
| Renderer.VideoRenderer.Release | tmediaplayer/src/main/java/com/tans/tmediaplayer/player/renderer/VideoRenderer.kt:387-405 | keeps the class invariant, proved equal to RendererSpec.Release (see ReleaseDrains) |
| Renderer.VideoRenderer.Shutdown | tmediaplayer/src/main/java/com/tans/tmediaplayer/player/renderer/VideoRenderer.kt:390-400 | release of a live renderer, proved equal to RendererSpec.Release |
| Renderer.VideoRenderer.AttachPlayerView | tmediaplayer/src/main/java/com/tans/tmediaplayer/player/renderer/VideoRenderer.kt:408-410 | only the view attachment changes |
| Renderer.VideoRenderer.RenderViewCallback | tmediaplayer/src/main/java/com/tans/tmediaplayer/player/renderer/VideoRenderer.kt:429-436 | keeps the class invariant, proved equal to RendererSpec.CompleteOne |

## Left out

- Threads, the looper, the renderer's lock, the atomics and the callback executor. Each entry point and each delivery is modelled as one atomic step, and no interleaving within one is modelled.
  - The lock does give atomicity to play, pause, release and handleMessage.
  - The lock does not cover readableFrameReady (VideoRenderer.kt lines 365-372), requestRenderForce (lines 374-385, a state check followed by a compare-and-set), attachPlayerView (lines 408-410) or renderViewCallback (lines 429-436, run on the callback executor). For these, atomicity is an assumption of the model. For example, release() may run between requestRenderForce's state check and its compare-and-set, which the model does not capture.
  - The busy-spin on looper preparation in the init block is left out.
- The "wrong render frame" branches, where the frame dequeued is not the frame peeked (VideoRenderer.kt lines 104-108, 132-138, 155-162, 194-199). The renderer is the only consumer of the readable side and holds its lock between peek and dequeue, so in a sequential model these branches cannot be reached.
- The uptime clock is read twice per pass in the source (lines 120 and 124). The model uses one reading, `now`, for both.
- An interrupted `Thread.sleep` ends the end-of-stream wait early. The model covers an early end only through `drawn`, and the drain that follows makes the outcome the same either way.
- The byte copies of the plane data are native. The model keeps each plane's presence, size and array identity, not its bytes.
- `player.writeableVideoFrameReady()`, `externalClock.syncToClock` and logging are not modelled. The video clock is recorded as the last value the renderer set (`clock`).
- Kotlin Longs are modelled as unbounded integers. Timestamps and delays stay far from the 64-bit range, so there is no wrap-around to model.
- BaseReadWriteQueue is not part of this model. Its sides are modelled as FIFO sequences over a fixed pool of maxQueueSize frames, and the frames the decoder holds are a ghost sequence `lent`. Its allocBuffer and recycleBuffer are native allocations. The decoder's own writes of serial and isEof before enqueueReadable are `FrameQueue.Label` / `LabelLent`.
- Renderer.VideoRenderer.HandleMessage: implements the corrected delivery, which does nothing once the renderer is released. The delivery as written is kept as RendererSpec.TickAsWritten (see Findings).
- Renderer.VideoRenderer.Deliver: is the body of handleMessage with a check on Released added first, the same correction as HandleMessage.
- FrameQueue.PutReadable: assumes media info is loaded whenever the decoder hands over a frame. enqueueReadable dereferences `player.getMediaInfo()!!` (VideoFrameQueue.kt line 29) and throws when none is loaded. The model has no such failure: VideoFrame.Fill and VideoFrameQueue.EnqueueReadable assume it too.
- VideoFrames.DecodedFrame: plane sizes are natural numbers, as the native decoder reports them. `ByteArray(size)` (VideoFrameQueue.kt lines 35, 42, 49, 57, 64, 72) would throw on a negative size, and that failure is not modelled.
- The VideoFrame class, the clocks and tMediaPlayerView are not part of this model. The frame's fields are those the core reads and writes, and the view is a flag with its draws reported through the completion callback.

## Findings

| source | as written | input that shows it | evidently intended | confidence | as-written member | corrected member |
|---|---|---|---|---|---|---|
| tmediaplayer/src/main/java/com/tans/tmediaplayer/player/renderer/VideoRenderer.kt:71-91 | release() (lines 387-405) sets Released and quits the looper, but a render message the looper has already taken waits on the renderer's lock and runs afterwards. Its forced branch checks no state, so an end-of-stream marker of the current serial at the readable head sets the state to Eof after release. | From the init block: the decoder hands over the end-of-stream marker of serial 0, requestRenderForce is called while paused, release runs, and then the taken message is delivered with packet serial 0 | a released renderer stays released: a delivery after release does nothing | not executed | RendererFindings.ReleasedNotTerminalAsWritten | RendererProperties.ReleasedIsTerminal |

`RendererSpec.TickAsWritten` is the delivery as written. `RendererSpec.Tick` adds the check on Released, and the class's `HandleMessage` implements it.
