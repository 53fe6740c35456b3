/** The offline reader of captured containers: `read_npz_file`, `RGBDData`
    and the `Tray` that flips the image to RGB and runs depth filters. */
module RgbdReader {
  import opened Wrappers
  import opened NpzFile
  import DC = DepthCamera

  /** The focal lengths assumed for a container that does not record them. */
  const FX_DEFAULT: real := 615.4642333984375
  const FY_DEFAULT: real := 615.4144897460938

  datatype NpzError = KeyError   // `rgb_image` or `depth_image` missing

  /** Depth in the scaled unit: raw samples times the depth scale. */
  type Depth = seq<seq<real>>

  /** `RGBDData`: the path it was loaded from and what `read_npz_file` returned. */
  datatype RgbdData = RgbdData(path: string, image: Image, depth: Depth, fx: real, fy: real)

  /** `data['depth_image'] * scale`, numpy's element-wise product with a scalar. */
  function ScaleDepth(d: DepthMap, scale: real): (r: Depth)
    ensures |r| == |d|
    ensures forall i :: 0 <= i < |d| ==> |r[i]| == |d[i]|
    ensures forall i, j :: 0 <= i < |d| && 0 <= j < |d[i]| ==> r[i][j] == (d[i][j] as real) * scale
  {
    seq(|d|, i requires 0 <= i < |d| => seq(|d[i]|, j requires 0 <= j < |d[i]| => (d[i][j] as real) * scale))
  }

  /** `read_npz_file`: both images are required; the depth is scaled by the
      stored scale, 1 when absent; the focal lengths fall back to the
      defaults when absent. */
  function ReadNpzFile(c: Container): (r: Result<(Image, Depth, real, real), NpzError>)
    ensures r.Success? <==> RGB_IMAGE in Files(c) && DEPTH_IMAGE in Files(c)
  {
    if c.rgbImage.Some? && c.depthImage.Some? then
      Success((c.rgbImage.value, ScaleDepth(c.depthImage.value, c.depthScale.GetOr(1.0)),
               c.fx.GetOr(FX_DEFAULT), c.fy.GetOr(FY_DEFAULT)))
    else Failure(KeyError)
  }

  /** `RGBDData(path)`, given the container stored at `path`. */
  function LoadRgbd(path: string, c: Container): (r: Result<RgbdData, NpzError>)
    ensures r.Success? <==> ReadNpzFile(c).Success?
    ensures r.Success? ==>
      var (image, depth, fx, fy) := ReadNpzFile(c).value;
      r.value == RgbdData(path, image, depth, fx, fy)
  {
    var (image, depth, fx, fy) :- ReadNpzFile(c);
    Success(RgbdData(path, image, depth, fx, fy))
  }

  /** The reader hands the stored image back as it is, multiplies every depth
      sample by the stored scale, and reports the stored focal lengths. */
  lemma ReadStored(c: Container)
    requires c.rgbImage.Some? && c.depthImage.Some?
    ensures var r := ReadNpzFile(c).value;
      && r.0 == c.rgbImage.value
      && |r.1| == |c.depthImage.value|
      && (forall i, j :: 0 <= i < |r.1| && 0 <= j < |r.1[i]| ==>
            r.1[i][j] == (c.depthImage.value[i][j] as real) * c.depthScale.GetOr(1.0))
      && (c.fx.Some? ==> r.2 == c.fx.value)
      && (c.fy.Some? ==> r.3 == c.fy.value)
  {
  }

  /** Each missing key falls back on its own: without a stored scale the
      depth keeps its raw values, without a stored `fx` or `fy` that focal
      length's default is reported, whatever the other keys hold. */
  lemma ReadDefaults(c: Container)
    requires c.rgbImage.Some? && c.depthImage.Some?
    ensures var r := ReadNpzFile(c).value;
      c.depthScale.None? ==>
        forall i, j :: 0 <= i < |r.1| && 0 <= j < |r.1[i]| ==> r.1[i][j] == c.depthImage.value[i][j] as real
    ensures c.fx.None? ==> ReadNpzFile(c).value.2 == FX_DEFAULT
    ensures c.fy.None? ==> ReadNpzFile(c).value.3 == FY_DEFAULT
  {
  }

  /** Write then read: a camera that has read a complete frame set saves a
      container from which the reader recovers its colour image unchanged,
      its depth scaled by the camera's depth scale, and the intrinsic's own
      focal lengths, never the defaults. */
  lemma RoundTrip(cam: DC.Camera)
    requires DC.Valid(cam) && cam.depthIntrinsic.Some?
    ensures DC.SaveFile(cam).Success?
    ensures var c := DC.SaveFile(cam).value;
      ReadNpzFile(c) == Success((cam.colorImage.value,
                                 ScaleDepth(cam.depthImage.value, cam.depthScale),
                                 cam.depthIntrinsic.value.fx,
                                 cam.depthIntrinsic.value.fy))
  {
  }

  /** A container missing either image is rejected whatever else it holds. */
  lemma MissingImageRejected(c: Container)
    requires c.rgbImage.None? || c.depthImage.None?
    ensures ReadNpzFile(c) == Failure(KeyError)
  {
  }

  // ---------------------------------------------------------------- tray

  /** `image[:, :, ::-1]` on one pixel. */
  function Reverse<T>(px: seq<T>): (r: seq<T>)
    ensures |r| == |px|
    ensures forall k :: 0 <= k < |px| ==> r[k] == px[|px| - 1 - k]
  {
    seq(|px|, k requires 0 <= k < |px| => px[|px| - 1 - k])
  }

  /** `image[:, :, ::-1]`: every pixel's channels in reverse order (BGR to RGB). */
  function ReverseChannels(img: Image): (r: Image)
    ensures |r| == |img|
    ensures forall i :: 0 <= i < |img| ==> |r[i]| == |img[i]|
    ensures forall i, j :: 0 <= i < |img| && 0 <= j < |img[i]| ==> r[i][j] == Reverse(img[i][j])
  {
    seq(|img|, i requires 0 <= i < |img| => seq(|img[i]|, j requires 0 <= j < |img[i]| => Reverse(img[i][j])))
  }

  lemma ReverseTwice<T>(px: seq<T>)
    ensures Reverse(Reverse(px)) == px
  {
  }

  /** Reversing the channels twice gives the image back. */
  lemma ReverseChannelsTwice(img: Image)
    ensures ReverseChannels(ReverseChannels(img)) == img
  {
    var r := ReverseChannels(ReverseChannels(img));
    forall i | 0 <= i < |img|
      ensures r[i] == img[i]
    {
      forall j | 0 <= j < |img[i]|
        ensures r[i][j] == img[i][j]
      {
        ReverseTwice(img[i][j]);
      }
    }
  }

  /** `Tray`: its file, the loaded data, and the image and depth it works on. */
  datatype Tray = Tray(file: string, data: Option<RgbdData>, image: Option<Image>, depth: Option<Depth>)

  /** `Tray(file)`: nothing loaded yet. */
  function NewTray(file: string): (t: Tray)
    ensures t.file == file && t.data.None? && t.image.None? && t.depth.None?
  {
    Tray(file, None, None, None)
  }

  /** `Tray.read_data`, given the container stored at the tray's file: the
      image is the stored one with its channels reversed, the depth the
      scaled one; a container missing an image fails. */
  function ReadData(t: Tray, c: Container): (r: Result<Tray, NpzError>)
    ensures r.Success? <==> c.rgbImage.Some? && c.depthImage.Some?
    ensures r.Success? ==>
      && r.value.file == t.file
      && r.value.data == Some(LoadRgbd(t.file, c).value)
      && r.value.image.Some?
      && ReverseChannels(r.value.image.value) == c.rgbImage.value
      && r.value.depth == Some(ScaleDepth(c.depthImage.value, c.depthScale.GetOr(1.0)))
  {
    var data :- LoadRgbd(t.file, c);
    ReverseChannelsTwice(data.image);
    Success(t.(data := Some(data), image := Some(ReverseChannels(data.image)), depth := Some(data.depth)))
  }

  /** `Tray.preprocess`: each step's function applied to the depth in list
      order; a step's parameters are part of its function. */
  function Preprocess<D>(depth: D, steps: seq<D -> D>): D
    decreases |steps|
  {
    if |steps| == 0 then depth else Preprocess(steps[0](depth), steps[1..])
  }

  /** No steps leave the depth unchanged; one step is one application. */
  lemma PreprocessBase<D>(depth: D, f: D -> D)
    ensures Preprocess(depth, []) == depth
    ensures Preprocess(depth, [f]) == f(depth)
  {
  }

  /** Running two lists of steps one after the other is running their concatenation. */
  lemma {:induction false} PreprocessAppend<D>(depth: D, a: seq<D -> D>, b: seq<D -> D>)
    ensures Preprocess(depth, a + b) == Preprocess(Preprocess(depth, a), b)
    decreases |a|
  {
    if |a| > 0 {
      assert (a + b)[1..] == a[1..] + b;
      PreprocessAppend(a[0](depth), a[1..], b);
    } else {
      assert a + b == b;
    }
  }

  /** The tray's depth after `preprocess`. */
  function TrayPreprocess(t: Tray, steps: seq<Option<Depth> -> Option<Depth>>): (r: Tray)
    ensures r.depth == Preprocess(t.depth, steps)
    ensures r.(depth := t.depth) == t
    ensures |steps| == 0 ==> r == t
  {
    t.(depth := Preprocess(t.depth, steps))
  }
}
