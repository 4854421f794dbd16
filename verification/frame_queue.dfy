/**
 * The video frame pool: a fixed set of frame buffers handed between the
 * decoder and the renderer through two FIFO sides, writable (empty
 * buffers for the decoder) and readable (decoded frames for the renderer).
 * Pool is the value view of it; VideoFrameQueue updates frames in place.
 */
module FrameQueue {
  import opened Options
  import opened VideoFrames

  /** maxQueueSize of the video frame queue. */
  const MaxQueueSize: nat := 4

  /**
   * The pool's frames, its two sides, the frames the decoder has taken
   * from the writable side and not yet handed back (lent), and each
   * frame's metadata.
   */
  datatype Pool<F(==)> = Pool(pool: seq<F>, writable: seq<F>, readable: seq<F>, lent: seq<F>, meta: map<F, FrameMeta>)
  {
    function Meta(f: F): FrameMeta {
      if f in meta then meta[f] else BlankFrame
    }

    /** Every frame the pool itself has on one of its sides or lent out. */
    function Sides(): seq<F> {
      writable + readable + lent
    }
  }

  /** The frames of s are pairwise distinct. */
  ghost predicate Distinct<F>(s: seq<F>) {
    forall i, j :: 0 <= i < j < |s| ==> s[i] != s[j]
  }

  /** Well-formedness: distinct pool frames with metadata, sides within the pool, writable frames blank. */
  ghost predicate PoolWf<F>(p: Pool<F>) {
    && Distinct(p.pool)
    && (forall f :: f in p.pool ==> f in p.meta)
    && (forall f :: f in p.writable ==> f in p.pool && p.meta[f].IsBlank())
    && (forall f :: f in p.readable ==> f in p.pool)
    && (forall f :: f in p.lent ==> f in p.pool)
  }

  /** s without its first occurrence of x. */
  function Remove<F(==)>(s: seq<F>, x: F): (r: seq<F>)
    ensures x in s ==> multiset(r) == multiset(s) - multiset{x}
    ensures x !in s ==> r == s
    ensures forall y :: y in r ==> y in s
  {
    if s == [] then []
    else
      assert s == [s[0]] + s[1..];
      if s[0] == x then s[1..]
      else [s[0]] + Remove(s[1..], x)
  }

  /** dequeueWritable: the decoder takes the oldest empty buffer. */
  function TakeWritable<F(==)>(p: Pool<F>): Pool<F> {
    if p.writable == [] then p
    else p.(writable := p.writable[1..], lent := p.lent + [p.writable[0]])
  }

  /** The decoder's own labelling of a frame it holds with the current serial and the end-of-stream flag. */
  function Label<F(==)>(p: Pool<F>, f: F, serial: int, isEof: bool): Pool<F> {
    p.(meta := p.meta[f := p.Meta(f).(serial := serial, isEof := isEof)])
  }

  /** enqueueReadable: the decoder hands a filled frame back, behind every other readable frame. */
  function PutReadable<F(==)>(p: Pool<F>, f: F, d: DecodedFrame): Pool<F> {
    p.(lent := Remove(p.lent, f), readable := p.readable + [f], meta := p.meta[f := Filled(p.Meta(f), d)])
  }

  /** peekReadable: the oldest decoded frame, if any. */
  function PeekReadable<F(==)>(p: Pool<F>): Option<F> {
    if p.readable == [] then None else Some(p.readable[0])
  }

  /** dequeueReadable: the renderer takes the oldest decoded frame. */
  function Dequeue<F(==)>(p: Pool<F>): Pool<F> {
    if p.readable == [] then p else p.(readable := p.readable[1..])
  }

  /** enqueueWritable: a frame comes back empty, behind every other writable frame; its planes are kept. */
  function PutWritable<F(==)>(p: Pool<F>, f: F): Pool<F> {
    p.(writable := p.writable + [f], meta := p.meta[f := p.Meta(f).Blank()])
  }

  /** The decoder taking an empty frame moves it from the writable side to its own hands, and loses none. */
  lemma TakeWritableConserves<F>(p: Pool<F>)
    ensures var r := TakeWritable(p);
            && multiset(r.Sides()) == multiset(p.Sides())
            && (p.writable != [] ==> r.lent == p.lent + [p.writable[0]] && r.writable == p.writable[1..])
            && (PoolWf(p) ==> PoolWf(r))
  {
    if p.writable != [] {
      assert p.writable == [p.writable[0]] + p.writable[1..];
    }
  }

  /** Labelling a frame the decoder holds changes its serial and flag only. */
  lemma LabelKeeps<F>(p: Pool<F>, f: F, serial: int, isEof: bool)
    ensures var r := Label(p, f, serial, isEof);
            && r.Meta(f) == p.Meta(f).(serial := serial, isEof := isEof)
            && r.pool == p.pool && r.writable == p.writable && r.readable == p.readable && r.lent == p.lent
            && (PoolWf(p) && f in p.pool && f !in p.writable ==> PoolWf(r))
  {
  }

  /** Handing a frame back moves it from the decoder's hands to the tail of the readable side, filled. */
  lemma PutReadableConserves<F>(p: Pool<F>, f: F, d: DecodedFrame)
    requires f in p.lent
    ensures var r := PutReadable(p, f, d);
            && multiset(r.Sides()) == multiset(p.Sides())
            && r.readable == p.readable + [f] && r.writable == p.writable
            && r.Meta(f) == Filled(p.Meta(f), d)
            && (PoolWf(p) && f !in p.writable ==> PoolWf(r))
  {
  }

  /** Taking the oldest readable frame removes exactly that frame from the pool's sides. */
  lemma DequeueConserves<F>(p: Pool<F>)
    requires p.readable != []
    ensures var r := Dequeue(p);
            && multiset(r.Sides()) + multiset{p.readable[0]} == multiset(p.Sides())
            && (PoolWf(p) ==> PoolWf(r))
  {
    assert p.readable == [p.readable[0]] + p.readable[1..];
  }

  /** Recycling a frame adds exactly that frame to the pool's sides, blank and at the tail of the writable side. */
  lemma PutWritableConserves<F>(p: Pool<F>, f: F)
    ensures var r := PutWritable(p, f);
            && multiset(r.Sides()) == multiset(p.Sides()) + multiset{f}
            && r.writable == p.writable + [f] && r.readable == p.readable && r.lent == p.lent && r.pool == p.pool
            && r.Meta(f).IsBlank() && r.Meta(f).planes == p.Meta(f).planes
            && (forall g :: g != f ==> r.Meta(g) == p.Meta(g))
            && (PoolWf(p) && f in p.pool ==> PoolWf(r))
  {
  }

  class VideoFrameQueue {
    /** The frames allocated for the pool, in allocation order. */
    const pool: seq<VideoFrame>
    var writable: seq<VideoFrame>
    var readable: seq<VideoFrame>
    /** Frames the decoder has taken from the writable side and not yet enqueued as readable. */
    ghost var lent: seq<VideoFrame>

    /** Each frame's metadata as last written; Valid ties it to the frames themselves. */
    ghost var metas: map<VideoFrame, FrameMeta>

    ghost function Abs(): Pool<VideoFrame>
      reads this
    {
      Pool(pool, writable, readable, lent, metas)
    }

    ghost predicate Valid()
      reads this, pool
    {
      && |pool| == MaxQueueSize
      && PoolWf(Abs())
      && (forall f :: f in pool ==> metas[f] == f.Meta())
    }

    /** A pool of maxQueueSize fresh, empty frames, all on the writable side. */
    constructor ()
      ensures Valid()
      ensures readable == [] && lent == [] && writable == pool
    {
      var f0 := new VideoFrame();
      var f1 := new VideoFrame();
      var f2 := new VideoFrame();
      var f3 := new VideoFrame();
      pool := [f0, f1, f2, f3];
      writable := pool;
      readable := [];
      lent := [];
      metas := map[f0 := f0.Meta(), f1 := f1.Meta(), f2 := f2.Meta(), f3 := f3.Meta()];
    }

    method PeekReadable() returns (f: VideoFrame?)
      ensures readable == [] ==> f == null
      ensures readable != [] ==> f == readable[0]
    {
      f := if readable == [] then null else readable[0];
    }

    method DequeueReadable() returns (f: VideoFrame?)
      requires Valid()
      modifies this`readable
      ensures Valid() && Abs() == Dequeue(old(Abs()))
      ensures old(readable) == [] ==> f == null
      ensures old(readable) != [] ==> f == old(readable[0])
    {
      if readable == [] {
        f := null;
      } else {
        DequeueConserves(Abs());
        f := readable[0];
        readable := readable[1..];
      }
    }

    method DequeueWritable() returns (f: VideoFrame?)
      requires Valid()
      modifies this`writable, this`lent
      ensures Valid() && Abs() == TakeWritable(old(Abs()))
      ensures old(writable) == [] ==> f == null
      ensures old(writable) != [] ==> f == old(writable[0])
    {
      TakeWritableConserves(Abs());
      if writable == [] {
        f := null;
      } else {
        f := writable[0];
        writable := writable[1..];
        lent := lent + [f];
      }
    }

    /** enqueueWritable: reset the frame's metadata and append it to the writable side. */
    method EnqueueWritable(b: VideoFrame)
      requires Valid() && b in pool
      modifies this`writable, this`metas, b`pts, b`duration, b`serial, b`imageType, b`width, b`height, b`isEof
      ensures Valid() && Abs() == PutWritable(old(Abs()), b)
      ensures b.PlanesKept(old(b.yBuffer), old(b.uBuffer), old(b.vBuffer), old(b.uvBuffer), old(b.rgbaBuffer))
    {
      PutWritableConserves(Abs(), b);
      b.Reset();
      writable := writable + [b];
      metas := metas[b := b.Meta()];
    }

    /**
     * The decoder's own write of the serial and the end-of-stream flag on
     * a frame it holds, before it hands the frame back.
     */
    method LabelLent(b: VideoFrame, serial: int, isEof: bool)
      requires Valid() && b in lent && b !in writable
      modifies this`metas, b`serial, b`isEof
      ensures Valid() && Abs() == Label(old(Abs()), b, serial, isEof)
    {
      LabelKeeps(Abs(), b, serial, isEof);
      b.serial := serial;
      b.isEof := isEof;
      metas := metas[b := b.Meta()];
    }

    /**
     * enqueueReadable: fill a frame the decoder holds (whose serial and
     * end-of-stream flag it has already set) and append it to the readable side.
     */
    method EnqueueReadable(b: VideoFrame, d: DecodedFrame)
      requires Valid() && b in lent && b !in writable
      modifies this`readable, this`lent, this`metas, b
      ensures Valid() && Abs() == PutReadable(old(Abs()), b, d)
      ensures b.serial == old(b.serial) && b.isEof == old(b.isEof)
      ensures old(b.isEof) ==> b.PlanesKept(old(b.yBuffer), old(b.uBuffer), old(b.vBuffer), old(b.uvBuffer), old(b.rgbaBuffer))
      ensures !b.isEof ==> b.PlanesFilledFor(b.imageType, d, old(b.yBuffer), old(b.uBuffer), old(b.vBuffer), old(b.uvBuffer), old(b.rgbaBuffer))
      ensures b.FreshPlanes(old(b.yBuffer), old(b.uBuffer), old(b.vBuffer), old(b.uvBuffer), old(b.rgbaBuffer))
    {
      PutReadableConserves(Abs(), b, d);
      FillLent(b, d);
      lent := Remove(lent, b);
      readable := readable + [b];
    }

    /** The fill itself, on a frame the decoder still holds. */
    method FillLent(b: VideoFrame, d: DecodedFrame)
      requires Valid() && b in lent && b !in writable
      modifies this`metas, b
      ensures Valid() && Abs() == old(Abs()).(meta := old(metas)[b := Filled(old(Abs()).Meta(b), d)])
      ensures b.serial == old(b.serial) && b.isEof == old(b.isEof)
      ensures old(b.isEof) ==> b.PlanesKept(old(b.yBuffer), old(b.uBuffer), old(b.vBuffer), old(b.uvBuffer), old(b.rgbaBuffer))
      ensures !b.isEof ==> b.PlanesFilledFor(b.imageType, d, old(b.yBuffer), old(b.uBuffer), old(b.vBuffer), old(b.uvBuffer), old(b.rgbaBuffer))
      ensures b.FreshPlanes(old(b.yBuffer), old(b.uBuffer), old(b.vBuffer), old(b.uvBuffer), old(b.rgbaBuffer))
    {
      b.Fill(d);
      metas := metas[b := b.Meta()];
    }
  }
}
