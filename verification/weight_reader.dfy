/** `WeightReader`: a thin wrapper over the HX711 load-cell driver. The driver
    itself is not part of this model; only the calibration state the wrapper
    installs into it is, and each scaled reading it returns is an input. */
module WeightReading {

  /** The driver's calibration: the divisor applied to a reading and the tare offset subtracted from it. */
  datatype Driver = Driver(referenceUnit: real, offset: real)

  /** `hx` is the driver, `referenceUnit` the configured unit the wrapper keeps,
      `val` the last reading it published (0 until the first read). */
  datatype Reader = Reader(hx: Driver, referenceUnit: real, val: real)

  /** The constructor: stores the configured unit; `val` starts as the class attribute 0. */
  function Create(hx: Driver, referenceUnit: real): (r: Reader)
    ensures r.val == 0.0 && r.referenceUnit == referenceUnit && r.hx == hx
  {
    Reader(hx, referenceUnit, 0.0)
  }

  /** `setup`: clears `val`, installs the configured unit into the driver, and
      tares it; `tareOffset` is what the driver's 50-reading tare measures. */
  function Setup(r: Reader, tareOffset: real): (s: Reader)
    ensures s.val == 0.0
    ensures s.hx == Driver(r.referenceUnit, tareOffset)
    ensures s.referenceUnit == r.referenceUnit
  {
    r.(val := 0.0, hx := Driver(r.referenceUnit, tareOffset))
  }

  /** `read`: `weight` is the driver's `get_weight(5)`. A normal read clamps it
      at zero; a debug read publishes it as is. The driver is left as it was. */
  function Read(r: Reader, weight: real, debug: bool): (s: Reader)
    ensures s.hx == r.hx && s.referenceUnit == r.referenceUnit
    ensures debug ==> s.val == weight
    ensures !debug ==> s.val >= 0.0
    ensures !debug ==> (s.val == weight <==> weight >= 0.0)
    ensures !debug && weight < 0.0 ==> s.val == 0.0
  {
    r.(val := if debug then weight else Max0(weight))
  }

  /** Python's `max(0, x)`. */
  function Max0(x: real): real {
    if 0.0 < x then x else 0.0
  }

  /** `reset`: zero offset and unit 1 in the driver, so its readings become raw
      counts; the wrapper's configured unit and `val` are untouched. */
  function Reset(r: Reader): (s: Reader)
    ensures s.hx.offset == 0.0 && s.hx.referenceUnit == 1.0
    ensures s.referenceUnit == r.referenceUnit && s.val == r.val
  {
    r.(hx := Driver(1.0, 0.0))
  }

  /** The weight worker's loop: one read per driver reading, in order. */
  function ReadAll(r: Reader, weights: seq<real>, debug: bool): Reader
    decreases |weights|
  {
    if |weights| == 0 then r else ReadAll(Read(r, weights[0], debug), weights[1..], debug)
  }

  /** The wrapper keeps the configured unit through a reset, so a later `setup`
      puts it back into the driver. */
  lemma SetupAfterReset(r: Reader, tareOffset: real)
    ensures Setup(Reset(r), tareOffset).hx.referenceUnit == r.referenceUnit
    ensures Setup(Reset(r), tareOffset) == Setup(r, tareOffset)
  {
  }

  /** After `setup`, however many normal reads follow, the published weight is
      never negative, and the driver keeps its calibration. */
  lemma {:induction false} NormalReadsNonNegative(r: Reader, weights: seq<real>)
    requires r.val >= 0.0
    ensures ReadAll(r, weights, false).val >= 0.0
    ensures ReadAll(r, weights, false).hx == r.hx
    decreases |weights|
  {
    if |weights| > 0 {
      NormalReadsNonNegative(Read(r, weights[0], false), weights[1..]);
    }
  }

  /** The published weight is the last reading taken (clamped in normal mode). */
  lemma {:induction false} LastReadWins(r: Reader, weights: seq<real>, debug: bool)
    requires |weights| > 0
    ensures ReadAll(r, weights, debug).val
         == (if debug then weights[|weights| - 1] else Max0(weights[|weights| - 1]))
    decreases |weights|
  {
    if |weights| > 1 {
      LastReadWins(Read(r, weights[0], debug), weights[1..], debug);
      assert weights[1..][|weights[1..]| - 1] == weights[|weights| - 1];
    }
  }
}
