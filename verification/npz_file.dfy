/** The `.npz` container the camera writes and the analysis script reads: one
    optional entry per key, an entry being present exactly when the key is in
    the archive's `files`. */
module NpzFile {
  import opened Wrappers

  /** A `bgr8` colour sample. */
  type Byte = x: int | 0 <= x < 256

  /** A raw `z16` depth sample. */
  type Z16 = x: int | 0 <= x < 65536

  /** Rows of pixels, each pixel its channel values. */
  type Image = seq<seq<seq<Byte>>>

  /** Rows of raw depth samples. */
  type DepthMap = seq<seq<Z16>>

  const RGB_IMAGE := "rgb_image"
  const DEPTH_IMAGE := "depth_image"
  const DEPTH_SCALE := "depth_scale"
  const FX := "fx"
  const FY := "fy"
  const PPX := "ppx"
  const PPY := "ppy"

  datatype Container = Container(
    rgbImage: Option<Image>,
    depthImage: Option<DepthMap>,
    depthScale: Option<real>,
    fx: Option<real>,
    fy: Option<real>,
    ppx: Option<real>,
    ppy: Option<real>)

  /** `data.files`: the keys the archive holds. */
  function Files(c: Container): set<string> {
    (if c.rgbImage.Some? then {RGB_IMAGE} else {})
    + (if c.depthImage.Some? then {DEPTH_IMAGE} else {})
    + (if c.depthScale.Some? then {DEPTH_SCALE} else {})
    + (if c.fx.Some? then {FX} else {})
    + (if c.fy.Some? then {FY} else {})
    + (if c.ppx.Some? then {PPX} else {})
    + (if c.ppy.Some? then {PPY} else {})
  }
}
