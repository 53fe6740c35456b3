/** `DepthCamera`: the RealSense wrapper. The device, the pipeline and the
    frame alignment are not modelled; a frame set arrives as an input whose
    colour frame or aligned depth frame may be missing. */
module DepthCamera {
  import opened Wrappers
  import opened NpzFile

  // ---------------------------------------------------------------- streams

  datatype Format = Z16Format | Bgr8
  datatype Stream = Stream(width: nat, height: nat, format: Format, fps: nat)
  datatype StreamConfig = StreamConfig(depth: Stream, color: Stream)

  /** The sensor-name scan in the constructor, stopping at the first colour sensor. */
  function HasRgbSensor(names: seq<string>): (found: bool)
    ensures found <==> "RGB Camera" in names
  {
    if |names| == 0 then false
    else if names[0] == "RGB Camera" then true
    else
      assert names == [names[0]] + names[1..];
      HasRgbSensor(names[1..])
  }

  /** The stream choice in the constructor: nothing (the program exits) without
      a colour sensor; otherwise depth at 640x480 and colour at 960x540 on
      the L500 line, 640x480 on any other, all at 30 frames per second. */
  function Configure(productLine: string, sensorNames: seq<string>): (r: Option<StreamConfig>)
    ensures r.Some? <==> "RGB Camera" in sensorNames
    ensures r.Some? ==> r.value.depth == Stream(640, 480, Z16Format, 30)
    ensures r.Some? ==> r.value.color.format == Bgr8 && r.value.color.fps == 30
    ensures r.Some? ==> (r.value.color.width == 960 <==> productLine == "L500")
    ensures r.Some? ==> (r.value.color.width, r.value.color.height) in {(960, 540), (640, 480)}
  {
    if !HasRgbSensor(sensorNames) then None
    else if productLine == "L500" then Some(StreamConfig(Stream(640, 480, Z16Format, 30), Stream(960, 540, Bgr8, 30)))
    else Some(StreamConfig(Stream(640, 480, Z16Format, 30), Stream(640, 480, Bgr8, 30)))
  }

  // ---------------------------------------------------------------- frames

  datatype Intrinsics = Intrinsics(fx: real, fy: real, ppx: real, ppy: real)

  /** An aligned depth frame: its samples and its stream's intrinsics. */
  datatype DepthFrame = DepthFrame(data: DepthMap, intrinsics: Intrinsics)

  /** What `wait_for_frames` and the alignment deliver. */
  datatype FrameSet = FrameSet(color: Option<Image>, depth: Option<DepthFrame>)

  datatype Camera = Camera(
    colorImage: Option<Image>,
    depthImage: Option<DepthMap>,
    depthIntrinsic: Option<Intrinsics>,
    depthScale: real)

  /** What `read` returns: both images, or `(None, None)`. */
  datatype ReadResult = ReadResult(camera: Camera, color: Option<Image>, depth: Option<DepthMap>)

  predicate Complete(f: FrameSet) {
    f.color.Some? && f.depth.Some?
  }

  /** Images and intrinsic are recorded together: all three are set, or none is. */
  predicate Valid(cam: Camera) {
    && (cam.colorImage.Some? <==> cam.depthIntrinsic.Some?)
    && (cam.depthImage.Some? <==> cam.depthIntrinsic.Some?)
  }

  /** The constructor's state; `depthScale` is what the depth sensor reports. */
  function Init(depthScale: real): (cam: Camera)
    ensures Valid(cam) && cam.depthIntrinsic.None? && cam.depthScale == depthScale
  {
    Camera(None, None, None, depthScale)
  }

  /** `read`. An incomplete frame set returns `(None, None)` and changes
      nothing; otherwise both images are stored and returned, and the
      intrinsic is taken from the depth frame only if none was taken before. */
  function Read(cam: Camera, frames: FrameSet): (r: ReadResult)
    ensures r.color.Some? <==> Complete(frames)
    ensures r.depth.Some? <==> Complete(frames)
    ensures !Complete(frames) ==> r.camera == cam
    ensures Complete(frames) ==>
      && r.color == r.camera.colorImage == frames.color
      && r.depth == r.camera.depthImage == Some(frames.depth.value.data)
    ensures r.camera.depthScale == cam.depthScale
    ensures cam.depthIntrinsic.Some? ==> r.camera.depthIntrinsic == cam.depthIntrinsic
    ensures Valid(cam) ==> Valid(r.camera)
  {
    if !Complete(frames) then ReadResult(cam, None, None)
    else
      var intrinsic := if cam.depthIntrinsic.None? then Some(frames.depth.value.intrinsics) else cam.depthIntrinsic;
      var c := cam.(colorImage := frames.color, depthImage := Some(frames.depth.value.data), depthIntrinsic := intrinsic);
      ReadResult(c, c.colorImage, c.depthImage)
  }

  /** The camera worker calling `read` once per frame set, oldest first. */
  function ReadAll(cam: Camera, fs: seq<FrameSet>): (r: Camera)
    ensures Valid(cam) ==> Valid(r)
    decreases |fs|
  {
    if |fs| == 0 then cam else Read(ReadAll(cam, fs[..|fs| - 1]), fs[|fs| - 1]).camera
  }

  /** The intrinsics of the first complete frame set, if there is one. */
  function FirstIntrinsics(fs: seq<FrameSet>): Option<Intrinsics> {
    if |fs| == 0 then None
    else if Complete(fs[0]) then Some(fs[0].depth.value.intrinsics)
    else FirstIntrinsics(fs[1..])
  }

  lemma {:induction false} FirstIntrinsicsSnoc(fs: seq<FrameSet>, f: FrameSet)
    ensures FirstIntrinsics(fs + [f])
         == if FirstIntrinsics(fs).Some? then FirstIntrinsics(fs)
            else if Complete(f) then Some(f.depth.value.intrinsics) else None
    decreases |fs|
  {
    if |fs| > 0 {
      assert (fs + [f])[1..] == fs[1..] + [f];
      FirstIntrinsicsSnoc(fs[1..], f);
    }
  }

  /** The intrinsic is latched: after any run of reads it is the one the
      camera already held, or else the one of the first complete frame set. */
  lemma {:induction false} IntrinsicLatched(cam: Camera, fs: seq<FrameSet>)
    ensures ReadAll(cam, fs).depthIntrinsic
         == if cam.depthIntrinsic.Some? then cam.depthIntrinsic else FirstIntrinsics(fs)
    ensures ReadAll(cam, fs).depthScale == cam.depthScale
    ensures Valid(cam) ==> Valid(ReadAll(cam, fs))
    decreases |fs|
  {
    if |fs| > 0 {
      var init := fs[..|fs| - 1];
      IntrinsicLatched(cam, init);
      FirstIntrinsicsSnoc(init, fs[|fs| - 1]);
      assert init + [fs[|fs| - 1]] == fs;
    }
  }

  /** The last complete frame set, if there is one. */
  function LastComplete(fs: seq<FrameSet>): (r: Option<FrameSet>)
    ensures r.Some? ==> Complete(r.value) && r.value in fs
    decreases |fs|
  {
    if |fs| == 0 then None
    else if Complete(fs[|fs| - 1]) then Some(fs[|fs| - 1])
    else LastComplete(fs[..|fs| - 1])
  }

  /** The images the camera holds after a run of reads are those of the last
      complete frame set; with no complete frame set the camera is unchanged. */
  lemma {:induction false} LatestImages(cam: Camera, fs: seq<FrameSet>)
    ensures LastComplete(fs).None? ==> ReadAll(cam, fs) == cam
    ensures LastComplete(fs).Some? ==>
      && ReadAll(cam, fs).colorImage == LastComplete(fs).value.color
      && ReadAll(cam, fs).depthImage == Some(LastComplete(fs).value.depth.value.data)
    decreases |fs|
  {
    if |fs| > 0 {
      LatestImages(cam, fs[..|fs| - 1]);
    }
  }

  // ---------------------------------------------------------------- saving

  datatype SaveError = NoIntrinsic   // `None.fx` before the first complete read

  /** `save_file`: writes exactly the seven entries, each from the current
      state; before the first complete read there is no intrinsic to read
      `fx` from, and the call fails. */
  function SaveFile(cam: Camera): (r: Result<Container, SaveError>)
    requires Valid(cam)
    ensures r.Success? <==> cam.depthIntrinsic.Some?
    ensures r.Success? ==> Files(r.value) == {RGB_IMAGE, DEPTH_IMAGE, DEPTH_SCALE, FX, FY, PPX, PPY}
    ensures r.Success? ==>
      && r.value.rgbImage == cam.colorImage
      && r.value.depthImage == cam.depthImage
      && r.value.depthScale == Some(cam.depthScale)
      && r.value.fx == Some(cam.depthIntrinsic.value.fx)
      && r.value.fy == Some(cam.depthIntrinsic.value.fy)
      && r.value.ppx == Some(cam.depthIntrinsic.value.ppx)
      && r.value.ppy == Some(cam.depthIntrinsic.value.ppy)
  {
    match cam.depthIntrinsic
    case None => Failure(NoIntrinsic)
    case Some(k) => Success(Container(cam.colorImage, cam.depthImage, Some(cam.depthScale), Some(k.fx), Some(k.fy), Some(k.ppx), Some(k.ppy)))
  }

  /** Saving before any complete frame set has been read fails; after one it succeeds. */
  lemma SaveNeedsRead(depthScale: real, fs: seq<FrameSet>)
    ensures SaveFile(Init(depthScale)).Failure?
    ensures SaveFile(ReadAll(Init(depthScale), fs)).Success? <==> exists k :: 0 <= k < |fs| && Complete(fs[k])
  {
    IntrinsicLatched(Init(depthScale), fs);
    FirstIntrinsicsFound(fs);
  }

  lemma {:induction false} FirstIntrinsicsFound(fs: seq<FrameSet>)
    ensures FirstIntrinsics(fs).Some? <==> exists k :: 0 <= k < |fs| && Complete(fs[k])
    decreases |fs|
  {
    if |fs| > 0 {
      FirstIntrinsicsFound(fs[1..]);
      if Complete(fs[0]) {
      } else if exists k :: 0 <= k < |fs| && Complete(fs[k]) {
        var k :| 0 <= k < |fs| && Complete(fs[k]);
        assert Complete(fs[1..][k - 1]);
      }
    }
  }
}
