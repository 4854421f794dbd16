/**
 * A video frame buffer of the pool: its metadata, its lazily sized plane
 * arrays, and the two in-place updates the frame queue performs on it
 * (reset when it goes back to the writable side, fill when the decoder
 * hands it to the readable side).
 */
module VideoFrames {

  newtype byte = x: int | 0 <= x < 256

  /** The image layout tag of a decoded frame. */
  datatype ImageRawType = Yuv420p | Nv12 | Nv21 | Rgba | Unknown

  /** Which plane arrays a frame currently holds (a plane is present when it is not null). */
  datatype Planes = Planes(y: bool, u: bool, v: bool, uv: bool, rgba: bool)

  const NoPlanes := Planes(false, false, false, false, false)

  /** The observable metadata of a frame buffer. */
  datatype FrameMeta = FrameMeta(
    pts: int, duration: int, serial: int, imageType: ImageRawType,
    width: int, height: int, isEof: bool, planes: Planes)
  {
    /** The empty state every writable buffer is in. */
    predicate IsBlank() {
      pts == 0 && duration == 0 && serial == 0 && imageType == Unknown &&
      width == 0 && height == 0 && !isEof
    }

    /** The metadata after the frame has been reset: everything cleared, planes kept. */
    function Blank(): (r: FrameMeta)
      ensures r.IsBlank() && r.planes == planes
    {
      this.(pts := 0, duration := 0, serial := 0, imageType := Unknown,
            width := 0, height := 0, isEof := false)
    }
  }

  const BlankFrame := FrameMeta(0, 0, 0, Unknown, 0, 0, false, NoPlanes)

  /** What the native decoder reports for the frame it produced: pts, duration, layout, size and plane sizes. */
  datatype DecodedFrame = DecodedFrame(
    pts: int, duration: int, imageType: ImageRawType, width: int, height: int,
    ySize: nat, uSize: nat, vSize: nat, uvSize: nat, rgbaSize: nat)

  /** The planes a layout fills. */
  function PlanesAfterFill(p: Planes, t: ImageRawType): (r: Planes)
    ensures t == Yuv420p ==> r.y && r.u && r.v && r.uv == p.uv && r.rgba == p.rgba
    ensures (t == Nv12 || t == Nv21) ==> r.y && r.uv && r.u == p.u && r.v == p.v && r.rgba == p.rgba
    ensures t == Rgba ==> r.rgba && r.y == p.y && r.u == p.u && r.v == p.v && r.uv == p.uv
    ensures t == Unknown ==> r == p
  {
    match t
    case Yuv420p => p.(y := true, u := true, v := true)
    case Nv12 => p.(y := true, uv := true)
    case Nv21 => p.(y := true, uv := true)
    case Rgba => p.(rgba := true)
    case Unknown => p
  }

  /** The metadata after the frame has been filled from the decoder (serial and isEof are the caller's). */
  function Filled(m: FrameMeta, d: DecodedFrame): (r: FrameMeta)
    ensures r.pts == d.pts && r.duration == d.duration
    ensures r.serial == m.serial && r.isEof == m.isEof
    ensures m.isEof ==> r.imageType == m.imageType && r.width == m.width && r.height == m.height && r.planes == m.planes
    ensures !m.isEof ==> r.imageType == d.imageType && r.width == d.width && r.height == d.height
    ensures !m.isEof ==> r.planes == PlanesAfterFill(m.planes, d.imageType)
  {
    var m1 := m.(pts := d.pts, duration := d.duration);
    if m1.isEof then m1
    else m1.(imageType := d.imageType, width := d.width, height := d.height,
             planes := PlanesAfterFill(m.planes, d.imageType))
  }

  /**
   * The plane to copy a frame's bytes into: the current array when its
   * length already equals the reported size, otherwise a new one.
   */
  method PlaneFor(plane: array?<byte>, size: nat) returns (r: array<byte>)
    ensures r.Length == size
    ensures plane != null && plane.Length == size <==> r == plane
    ensures r != plane ==> fresh(r)
  {
    if plane == null || plane.Length != size {
      r := new byte[size];
    } else {
      r := plane;
    }
  }

  class VideoFrame {
    var pts: int
    var duration: int
    var serial: int
    var imageType: ImageRawType
    var width: int
    var height: int
    var isEof: bool
    var yBuffer: array?<byte>
    var uBuffer: array?<byte>
    var vBuffer: array?<byte>
    var uvBuffer: array?<byte>
    var rgbaBuffer: array?<byte>

    function Meta(): FrameMeta
      reads this
    {
      FrameMeta(pts, duration, serial, imageType, width, height, isEof, PlanePresence())
    }

    function PlanePresence(): Planes
      reads this
    {
      Planes(yBuffer != null, uBuffer != null, vBuffer != null, uvBuffer != null, rgbaBuffer != null)
    }

    /** A freshly allocated frame: empty metadata and no planes yet. */
    constructor ()
      ensures Meta() == BlankFrame
    {
      pts, duration, serial := 0, 0, 0;
      imageType, width, height, isEof := Unknown, 0, 0, false;
      yBuffer, uBuffer, vBuffer, uvBuffer, rgbaBuffer := null, null, null, null, null;
    }

    /** The reset enqueueWritable performs: metadata cleared, plane arrays kept for reuse. */
    method Reset()
      modifies this`pts, this`duration, this`serial, this`imageType, this`width, this`height, this`isEof
      ensures Meta() == old(Meta()).Blank()
      ensures yBuffer == old(yBuffer) && uBuffer == old(uBuffer) && vBuffer == old(vBuffer)
      ensures uvBuffer == old(uvBuffer) && rgbaBuffer == old(rgbaBuffer)
    {
      pts := 0;
      duration := 0;
      serial := 0;
      imageType := Unknown;
      width := 0;
      height := 0;
      isEof := false;
    }

    /**
     * The fill enqueueReadable performs: pts and duration always; for a
     * frame that is not the end-of-stream marker, layout, size and the
     * planes the layout uses. serial and isEof are never written here.
     */
    method Fill(d: DecodedFrame)
      modifies this
      ensures Meta() == Filled(old(Meta()), d)
      ensures serial == old(serial) && isEof == old(isEof)
      // the end-of-stream marker keeps every plane
      ensures old(isEof) ==> PlanesKept(old(yBuffer), old(uBuffer), old(vBuffer), old(uvBuffer), old(rgbaBuffer))
      // otherwise the layout decides which planes are refilled
      ensures !isEof ==> PlanesFilledFor(imageType, d, old(yBuffer), old(uBuffer), old(vBuffer), old(uvBuffer), old(rgbaBuffer))
      ensures FreshPlanes(old(yBuffer), old(uBuffer), old(vBuffer), old(uvBuffer), old(rgbaBuffer))
    {
      pts := d.pts;
      duration := d.duration;
      if !isEof {
        imageType := d.imageType;
        width := d.width;
        height := d.height;
        FillPlanes(imageType, d);
      }
    }

    /** Make the planes layout t uses fit the reported sizes (the byte copy itself is native). */
    method FillPlanes(t: ImageRawType, d: DecodedFrame)
      modifies this`yBuffer, this`uBuffer, this`vBuffer, this`uvBuffer, this`rgbaBuffer
      ensures PlanePresence() == PlanesAfterFill(old(PlanePresence()), t)
      ensures PlanesFilledFor(t, d, old(yBuffer), old(uBuffer), old(vBuffer), old(uvBuffer), old(rgbaBuffer))
      ensures FreshPlanes(old(yBuffer), old(uBuffer), old(vBuffer), old(uvBuffer), old(rgbaBuffer))
    {
      match t
      case Yuv420p =>
        yBuffer := PlaneFor(yBuffer, d.ySize);
        uBuffer := PlaneFor(uBuffer, d.uSize);
        vBuffer := PlaneFor(vBuffer, d.vSize);
      case Nv12 =>
        yBuffer := PlaneFor(yBuffer, d.ySize);
        uvBuffer := PlaneFor(uvBuffer, d.uvSize);
      case Nv21 =>
        yBuffer := PlaneFor(yBuffer, d.ySize);
        uvBuffer := PlaneFor(uvBuffer, d.uvSize);
      case Rgba =>
        rgbaBuffer := PlaneFor(rgbaBuffer, d.rgbaSize);
      case Unknown =>
    }

    /** Every plane array that was replaced is newly allocated: no frame ever takes another's plane. */
    twostate predicate FreshPlanes(y0: array?<byte>, u0: array?<byte>, v0: array?<byte>, uv0: array?<byte>, rgba0: array?<byte>)
      reads this
    {
      && (yBuffer != y0 ==> fresh(yBuffer))
      && (uBuffer != u0 ==> fresh(uBuffer))
      && (vBuffer != v0 ==> fresh(vBuffer))
      && (uvBuffer != uv0 ==> fresh(uvBuffer))
      && (rgbaBuffer != rgba0 ==> fresh(rgbaBuffer))
    }

    ghost predicate PlanesKept(y0: array?<byte>, u0: array?<byte>, v0: array?<byte>, uv0: array?<byte>, rgba0: array?<byte>)
      reads this
    {
      yBuffer == y0 && uBuffer == u0 && vBuffer == v0 && uvBuffer == uv0 && rgbaBuffer == rgba0
    }

    /** The plane p has the reported size; it is the old array exactly when that already had the size. */
    static ghost predicate Refilled(p: array?<byte>, p0: array?<byte>, size: nat)
    {
      p != null && p.Length == size && (p0 != null && p0.Length == size <==> p == p0)
    }

    /** Planar YUV refills y, u and v; NV12/NV21 refill y and uv; RGBA refills rgba; Unknown refills none. */
    ghost predicate PlanesFilledFor(t: ImageRawType, d: DecodedFrame, y0: array?<byte>, u0: array?<byte>, v0: array?<byte>, uv0: array?<byte>, rgba0: array?<byte>)
      reads this
    {
      match t
      case Yuv420p =>
        Refilled(yBuffer, y0, d.ySize) && Refilled(uBuffer, u0, d.uSize) && Refilled(vBuffer, v0, d.vSize) &&
        uvBuffer == uv0 && rgbaBuffer == rgba0
      case Nv12 =>
        Refilled(yBuffer, y0, d.ySize) && Refilled(uvBuffer, uv0, d.uvSize) &&
        uBuffer == u0 && vBuffer == v0 && rgbaBuffer == rgba0
      case Nv21 =>
        Refilled(yBuffer, y0, d.ySize) && Refilled(uvBuffer, uv0, d.uvSize) &&
        uBuffer == u0 && vBuffer == v0 && rgbaBuffer == rgba0
      case Rgba =>
        Refilled(rgbaBuffer, rgba0, d.rgbaSize) &&
        yBuffer == y0 && uBuffer == u0 && vBuffer == v0 && uvBuffer == uv0
      case Unknown => PlanesKept(y0, u0, v0, uv0, rgba0)
    }
  }
}
