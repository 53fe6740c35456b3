/** `TestModulePage` of the hardware test screen: the panel switch with its
    LED and weight timers, and the two-phase calibration of the load cell.

    Calibration: the operator empties the scale and starts; the sum timer
    takes READ_TIME debug readings into the empty list and replaces it by
    its trimmed mean; the keypad asks for the reference object's weight;
    confirming starts READ_TIME more readings into the object list, and the
    last one computes `reference_unit = (object mean - empty mean) / weight`,
    installs it in the driver and emits it for the config file. */
module TestModule {
  import opened Wrappers
  import TM = TrimmedMean
  import WR = WeightReading
  import KP = Keypad

  const READ_TIME: nat := TM.READ_TIME

  /** `COMPONENT_NAME`: the panels of the test page, stacked in this order. */
  datatype Component = Blank | DepthCameraPanel | LedPanel | WeightPanel

  /** The weight panel's stacked views: COMPONENT_CLEAR, _WAIT, _INPUT, _FINISH. */
  datatype View = ClearView | WaitView | InputView | FinishView

  /** `led_status`, an index into LED_STATUS. */
  type LedIndex = i: int | 0 <= i < 3

  /** The configuration keys of the three LED colours, in the order the LED timer cycles them. */
  const LED_STATUS: seq<string> := ["state_setup", "state_idle", "state_busy"]

  /** `empty_value` / `object_value`: a list of readings until its phase
      completes, then rebound to the float the trimmed mean returned. */
  datatype Slot = Samples(values: seq<real>) | Processed(mean: real)

  /** The exceptions the calibration code can raise. */
  datatype CalibrationError =
    | NotAList          // `.append` or `.sort` on a slot that already holds a float
    | EmptySlice        // `process_value` on fewer than ten readings
    | NotANumber        // subtracting a slot that still holds a list
    | ZeroObjectWeight  // the division by an object weight of 0
    | NotAWeight        // `float()` on a keypad buffer that is not a number

  /** The page's state. `objectWeight` is `WeightModulePage.object_weight`,
      `keypad` the keypad's text buffer, `reader` the page's own weight reader. */
  datatype Page = Page(
    component: Component,
    ledTimerOn: bool,
    ledStatus: LedIndex,
    weightTimerOn: bool,
    sumTimerOn: bool,
    readTimes: int,
    emptyValue: Slot,
    objectValue: Slot,
    calibrateStatus: int,
    objectWeight: real,
    view: View,
    keypad: string,
    reader: WR.Reader)

  /** The page after a sampling tick, and the reference unit the tick emitted, if any. */
  datatype Tick = Tick(page: Page, saved: Option<real>)

  /** The page as the constructor leaves it. */
  function Init(reader: WR.Reader): (p: Page)
    ensures Valid(p) && Fresh(p)
    ensures p.component == Blank && !p.ledTimerOn && !p.weightTimerOn && !p.sumTimerOn
    ensures p.ledStatus == 0 && p.objectWeight == 0.0
    ensures p.view == ClearView && p.keypad == "" && p.reader == reader
  {
    Page(Blank, false, 0, false, false, READ_TIME, Samples([]), Samples([]), 0, 0.0, ClearView, "", reader)
  }

  /** The dict `save_config_signal` carries. */
  function ConfigUpdate(referenceUnit: real): (d: map<string, map<string, real>>)
    ensures d.Keys == {"weight"} && d["weight"].Keys == {"reference_unit"}
    ensures d["weight"]["reference_unit"] == referenceUnit
  {
    map["weight" := map["reference_unit" := referenceUnit]]
  }

  // ---------------------------------------------------------------- panels and LED

  /** `change_component`: the LED timer runs exactly when the LED panel is
      shown and the weight timer exactly when the weight panel is; nothing
      else changes. */
  function ChangeComponent(p: Page, c: Component): (q: Page)
    ensures q.component == c
    ensures q.ledTimerOn <==> c == LedPanel
    ensures q.weightTimerOn <==> c == WeightPanel
    ensures q.(component := p.component, ledTimerOn := p.ledTimerOn, weightTimerOn := p.weightTimerOn) == p
  {
    p.(component := c, ledTimerOn := c == LedPanel, weightTimerOn := c == WeightPanel)
  }

  /** Only the last panel switch matters. */
  lemma ChangeComponentLastWins(p: Page, a: Component, b: Component)
    ensures ChangeComponent(ChangeComponent(p, a), b) == ChangeComponent(p, b)
  {
  }

  /** `led_handler`: shows the colour at `led_status` (returned as its config
      key) and advances the index, wrapping after the third. */
  function LedHandler(p: Page): (r: (Page, string))
    ensures r.1 == LED_STATUS[p.ledStatus]
    ensures r.0.ledStatus == (p.ledStatus + 1) % 3
    ensures r.0 == p.(ledStatus := r.0.ledStatus)
  {
    (p.(ledStatus := (p.ledStatus + 1) % 3), LED_STATUS[p.ledStatus])
  }

  /** Three LED ticks show the three colours in cyclic order and end where they began. */
  lemma LedCycle(p: Page)
    ensures var (p1, k1) := LedHandler(p);
            var (p2, k2) := LedHandler(p1);
            var (p3, k3) := LedHandler(p2);
            && p3 == p
            && k1 == LED_STATUS[p.ledStatus]
            && k2 == LED_STATUS[(p.ledStatus + 1) % 3]
            && k3 == LED_STATUS[(p.ledStatus + 2) % 3]
  {
  }

  /** `weight_handler`: one normal read, which is never negative. */
  function WeightHandler(p: Page, weight: real): (q: Page)
    ensures q.reader.val >= 0.0
    ensures q.reader == WR.Read(p.reader, weight, false)
    ensures q == p.(reader := q.reader)
  {
    p.(reader := WR.Read(p.reader, weight, false))
  }

  // ---------------------------------------------------------------- calibration

  /** `list.append` on a slot; a slot already reduced to a number has no `append`. */
  function Append(s: Slot, v: real): (r: Result<Slot, CalibrationError>)
    ensures r.Success? <==> s.Samples?
    ensures s.Processed? ==> r == Failure(NotAList)
  {
    match s
    case Samples(vs) => Success(Samples(vs + [v]))
    case Processed(_) => Failure(NotAList)
  }

  /** An appended reading goes at the end: the list grows by one, keeps its
      old readings in order, and ends with the new one. */
  lemma AppendAtEnd(s: Slot, v: real)
    requires s.Samples?
    ensures var r := Append(s, v);
      && r.Success? && r.value.Samples? && |r.value.values| == |s.values| + 1
      && r.value.values[..|s.values|] == s.values && r.value.values[|s.values|] == v
  {
  }

  /** `process_value` on a slot, rebinding it to the trimmed mean. */
  function Process(s: Slot): (r: Result<Slot, CalibrationError>)
    ensures r.Success? <==> s.Samples? && |s.values| >= 10
    ensures s.Samples? && |s.values| >= 10 ==> r == Success(Processed(TM.ProcessValue(s.values).value))
    ensures s.Samples? && |s.values| < 10 ==> r == Failure(EmptySlice)
    ensures s.Processed? ==> r == Failure(NotAList)
  {
    match s
    case Samples(vs) =>
      (match TM.ProcessValue(vs)
       case Success(m) => Success(Processed(m))
       case Failure(_) => Failure(EmptySlice))
    case Processed(_) => Failure(NotAList)
  }

  /** The reference unit's formula: the difference of the two means divided by the object's weight. */
  function Quotient(objectMean: real, emptyMean: real, objectWeight: real): (unit: real)
    requires objectWeight != 0.0
    ensures unit * objectWeight == objectMean - emptyMean
  {
    (objectMean - emptyMean) / objectWeight
  }

  /** `(object_value - empty_value) / object_weight`. */
  function ReferenceUnit(objectValue: Slot, emptyValue: Slot, objectWeight: real): (r: Result<real, CalibrationError>)
    ensures r.Success? <==> objectValue.Processed? && emptyValue.Processed? && objectWeight != 0.0
    ensures objectValue.Processed? && emptyValue.Processed? && objectWeight == 0.0 ==> r == Failure(ZeroObjectWeight)
    ensures r.Success? ==> r.value * objectWeight == objectValue.mean - emptyValue.mean
  {
    match (objectValue, emptyValue)
    case (Processed(o), Processed(e)) =>
      if objectWeight == 0.0 then Failure(ZeroObjectWeight) else Success(Quotient(o, e, objectWeight))
    case _ => Failure(NotANumber)
  }

  /** `weight_sum_handler`, one tick of the sum timer: a debug read, appended
      to the list of the current phase; the tick that brings `read_times` to 0
      completes the phase. */
  function WeightSumHandler(p: Page, weight: real): Result<Tick, CalibrationError> {
    var reader := WR.Read(p.reader, weight, true);
    var emptyValue :- if p.calibrateStatus == 0 then Append(p.emptyValue, reader.val) else Success(p.emptyValue);
    var objectValue :- if p.calibrateStatus == 1 then Append(p.objectValue, reader.val) else Success(p.objectValue);
    var q := p.(reader := reader, emptyValue := emptyValue, objectValue := objectValue, readTimes := p.readTimes - 1);
    if q.readTimes != 0 then Success(Tick(q, None)) else CompletePhase(q)
  }

  /** One tick in any state: the reading is published unclamped; a list
      already reduced to its mean cannot take another reading; a tick before
      the last counts down without emitting; the last restores the counter,
      stops the timer and moves to the other phase. */
  lemma SumTick(p: Page, weight: real)
    ensures p.calibrateStatus == 0 && p.emptyValue.Processed? ==> WeightSumHandler(p, weight) == Failure(NotAList)
    ensures p.calibrateStatus == 1 && p.objectValue.Processed? ==> WeightSumHandler(p, weight) == Failure(NotAList)
    ensures var r := WeightSumHandler(p, weight);
      r.Success? ==> r.value.page.reader.val == weight
    ensures var r := WeightSumHandler(p, weight);
      r.Success? && p.readTimes != 1 ==>
        && r.value.saved.None? && r.value.page.readTimes == p.readTimes - 1
        && (p.calibrateStatus == 0 ==> r.value.page.emptyValue == Samples(p.emptyValue.values + [weight]))
        && (p.calibrateStatus == 1 ==> r.value.page.objectValue == Samples(p.objectValue.values + [weight]))
    ensures var r := WeightSumHandler(p, weight);
      r.Success? && p.readTimes == 1 ==>
        r.value.page.readTimes == READ_TIME && !r.value.page.sumTimerOn
        && r.value.page.calibrateStatus == (p.calibrateStatus + 1) % 2
  {
  }

  /** The end of a phase: restore the counter, stop the timer, reduce the
      phase's list to its trimmed mean; after the object phase compute the
      reference unit, install it in the driver, emit it and clear the lists. */
  function CompletePhase(q: Page): (r: Result<Tick, CalibrationError>)
    ensures q.calibrateStatus == 0 ==>
      (r.Success? <==> q.emptyValue.Samples? && |q.emptyValue.values| >= 10)
    ensures q.calibrateStatus == 1 && q.objectValue.Samples? && |q.objectValue.values| >= 10 ==>
      (r.Success? <==> q.emptyValue.Processed? && q.objectWeight != 0.0)
    ensures r.Success? ==>
      && r.value.page.readTimes == READ_TIME && !r.value.page.sumTimerOn
      && r.value.page.calibrateStatus == (q.calibrateStatus + 1) % 2
      && (r.value.saved.Some? <==> q.calibrateStatus == 1)
      && r.value.page.reader.val == q.reader.val
    ensures r.Success? && q.calibrateStatus == 0 ==>
      && r.value.page.view == InputView
      && r.value.page.emptyValue == Processed(TM.ProcessValue(q.emptyValue.values).value)
      && r.value.page.objectWeight == q.objectWeight && r.value.page.reader == q.reader
    ensures r.Success? && q.calibrateStatus == 1 ==>
      && r.value.page.view == FinishView
      && q.objectValue.Samples? && |q.objectValue.values| >= 10 && q.emptyValue.Processed?
      && r.value.saved.value * q.objectWeight == TM.ProcessValue(q.objectValue.values).value - q.emptyValue.mean
      && r.value.page.reader.hx.referenceUnit == r.value.saved.value
      && r.value.page.emptyValue == Samples([]) && r.value.page.objectValue == Samples([])
      && r.value.page.objectWeight == 0.0
  {
    var emptyValue :- if q.calibrateStatus == 0 then Process(q.emptyValue) else Success(q.emptyValue);
    var objectValue :- if q.calibrateStatus == 1 then Process(q.objectValue) else Success(q.objectValue);
    var next := q.(readTimes := READ_TIME, sumTimerOn := false, emptyValue := emptyValue,
                   objectValue := objectValue, calibrateStatus := (q.calibrateStatus + 1) % 2);
    if q.calibrateStatus == 1 then
      var unit :- ReferenceUnit(objectValue, emptyValue, q.objectWeight);
      Success(Tick(next.(reader := next.reader.(hx := next.reader.hx.(referenceUnit := unit)),
                         objectValue := Samples([]), emptyValue := Samples([]),
                         objectWeight := 0.0, view := FinishView),
                   Some(unit)))
    else
      Success(Tick(next.(view := InputView), None))
  }

  /** `read_empty_value`, run by the start button and by a confirmed weight:
      stop the live display, put the driver in raw-count mode, start sampling. */
  function ReadEmptyValue(p: Page): (q: Page)
    ensures q.sumTimerOn && !q.weightTimerOn && q.view == WaitView
    ensures q.reader == WR.Reset(p.reader)
    ensures q.(sumTimerOn := p.sumTimerOn, weightTimerOn := p.weightTimerOn, view := p.view, reader := p.reader) == p
  {
    p.(weightTimerOn := false, reader := WR.Reset(p.reader), sumTimerOn := true, view := WaitView)
  }

  /** `WeightModulePage.confirm`: store the entered weight, then start the object phase. */
  function Confirm(p: Page, objectWeight: real): (q: Page)
    ensures q == ReadEmptyValue(p.(objectWeight := objectWeight))
    ensures q.objectWeight == objectWeight
  {
    ReadEmptyValue(p.(objectWeight := objectWeight))
  }

  /** A keypad press on the weight panel; a Confirm that parses hands the weight to `Confirm`. */
  function KeyPressed(p: Page, cmd: KP.Command): (r: Result<Page, CalibrationError>)
    ensures r.Failure? <==> cmd.Confirm? && KP.Parse(p.keypad).None?
    ensures r.Success? && cmd.Confirm? ==>
      r.value == Confirm(p, KP.Parse(p.keypad).value)
    ensures !cmd.Confirm? ==> r.Success?
    ensures !cmd.Confirm? ==>
      r.value.keypad == KP.Press(p.keypad, cmd).value.output && r.value.(keypad := p.keypad) == p
  {
    match KP.Press(p.keypad, cmd)
    case Failure(_) => Failure(NotAWeight)
    case Success(pressed) =>
      var q := p.(keypad := pressed.output);
      match pressed.confirmed
      case Some(w) => Success(Confirm(q, w))
      case None => Success(q)
  }

  /** `reset_weight_reader`, the finish button: re-tare the driver (the tare
      measures `tareOffset`), restart the live display, back to the first view. */
  function ResetWeightReader(p: Page, tareOffset: real): (q: Page)
    ensures q.reader.hx.offset == tareOffset && q.reader.hx.referenceUnit == p.reader.hx.referenceUnit
    ensures q.weightTimerOn && q.view == ClearView
    ensures q.reader == p.reader.(hx := q.reader.hx)
    ensures q.(reader := p.reader, weightTimerOn := p.weightTimerOn, view := p.view) == p
  {
    p.(reader := p.reader.(hx := p.reader.hx.(offset := tareOffset)), weightTimerOn := true, view := ClearView)
  }

  // ---------------------------------------------------------------- invariant and runs

  /** The calibration state between ticks: during the empty phase the empty
      list holds the readings taken so far and the object list is empty;
      during the object phase the empty slot holds its mean. */
  predicate Valid(p: Page) {
    && 0 < p.readTimes <= READ_TIME
    && (p.calibrateStatus == 0 || p.calibrateStatus == 1)
    && (p.calibrateStatus == 0 ==>
          p.emptyValue.Samples? && |p.emptyValue.values| == READ_TIME - p.readTimes
          && p.objectValue == Samples([]))
    && (p.calibrateStatus == 1 ==>
          p.emptyValue.Processed? && p.objectValue.Samples?
          && |p.objectValue.values| == READ_TIME - p.readTimes)
  }

  /** A page ready to start a calibration from scratch. */
  predicate Fresh(p: Page) {
    p.calibrateStatus == 0 && p.readTimes == READ_TIME
    && p.emptyValue == Samples([]) && p.objectValue == Samples([])
  }

  /** The samples of the phase in progress. */
  function Current(p: Page): seq<real>
    requires Valid(p)
  {
    if p.calibrateStatus == 0 then p.emptyValue.values else p.objectValue.values
  }

  /** The page after the sum timer has recorded `ws` without completing the phase. */
  function Record(p: Page, ws: seq<real>): Page
    requires Valid(p)
  {
    p.(reader := if |ws| == 0 then p.reader else p.reader.(val := ws[|ws| - 1]),
       readTimes := p.readTimes - |ws|,
       emptyValue := if p.calibrateStatus == 0 then Samples(p.emptyValue.values + ws) else p.emptyValue,
       objectValue := if p.calibrateStatus == 1 then Samples(p.objectValue.values + ws) else p.objectValue)
  }

  /** A tick before the phase's last appends the debug reading, unclamped, to
      the current list and counts down by one; the page stays valid. */
  lemma TickRecords(p: Page, weight: real)
    requires Valid(p) && p.readTimes > 1
    ensures WeightSumHandler(p, weight) == Success(Tick(Record(p, [weight]), None))
    ensures Valid(Record(p, [weight]))
    ensures Current(Record(p, [weight])) == Current(p) + [weight]
  {
  }

  /** The last tick of the empty phase reduces the empty list to its trimmed
      mean, stops the timer, restores the counter and asks for the weight. */
  lemma TickEndsEmptyPhase(p: Page, weight: real)
    requires Valid(p) && p.calibrateStatus == 0 && p.readTimes == 1
    ensures WeightSumHandler(p, weight) == Success(Tick(
      p.(reader := p.reader.(val := weight), readTimes := READ_TIME, sumTimerOn := false,
         emptyValue := Processed(TM.ProcessValue(p.emptyValue.values + [weight]).value),
         calibrateStatus := 1, view := InputView),
      None))
  {
    assert |p.emptyValue.values + [weight]| == READ_TIME;
  }

  /** The last tick of the object phase divides the difference of the means
      by the object weight, installs and emits the result and clears the
      lists; with a zero weight it fails. */
  lemma TickEndsObjectPhase(p: Page, weight: real)
    requires Valid(p) && p.calibrateStatus == 1 && p.readTimes == 1
    ensures p.objectWeight == 0.0 ==> WeightSumHandler(p, weight) == Failure(ZeroObjectWeight)
    ensures p.objectWeight != 0.0 ==>
      var unit := Quotient(TM.ProcessValue(p.objectValue.values + [weight]).value, p.emptyValue.mean, p.objectWeight);
      WeightSumHandler(p, weight) == Success(Tick(
        p.(reader := p.reader.(val := weight, hx := p.reader.hx.(referenceUnit := unit)),
           readTimes := READ_TIME, sumTimerOn := false,
           emptyValue := Samples([]), objectValue := Samples([]), objectWeight := 0.0,
           calibrateStatus := 0, view := FinishView),
        Some(unit)))
  {
    assert |p.objectValue.values + [weight]| == READ_TIME;
  }

  /** The sum timer firing once per reading in `ws`, oldest first; a failing tick ends the run. */
  function Run(p: Page, ws: seq<real>): Result<Tick, CalibrationError>
    decreases |ws|
  {
    if |ws| == 0 then Success(Tick(p, None))
    else
      var t :- Run(p, ws[..|ws| - 1]);
      WeightSumHandler(t.page, ws[|ws| - 1])
  }

  /** Recording in two batches is recording once. */
  lemma RecordSnoc(p: Page, init: seq<real>, last: real)
    requires Valid(p) && Valid(Record(p, init))
    ensures Record(Record(p, init), [last]) == Record(p, init + [last])
  {
    var cur := Current(p);
    assert cur + init + [last] == cur + (init + [last]);
  }

  /** Fewer readings than the phase still needs are appended one by one, in order. */
  lemma {:induction false} Collect(p: Page, ws: seq<real>)
    requires Valid(p) && |ws| < p.readTimes
    ensures Valid(Record(p, ws))
    ensures Run(p, ws) == Success(Tick(Record(p, ws), None))
    decreases |ws|
  {
    if |ws| > 0 {
      var init := ws[..|ws| - 1];
      var last := ws[|ws| - 1];
      Collect(p, init);
      TickRecords(Record(p, init), last);
      RecordSnoc(p, init, last);
      assert init + [last] == ws;
      assert Run(p, ws) == WeightSumHandler(Record(p, init), last);
      assert WeightSumHandler(Record(p, init), last) == Success(Tick(Record(Record(p, init), [last]), None));
      assert Record(Record(p, init), [last]) == Record(p, init + [last]);
      assert Record(p, init + [last]) == Record(p, ws);
    } else {
      assert Current(p) + ws == Current(p);
    }
  }

  /** The empty phase: after its last reading the empty slot holds the trimmed
      mean of all the phase's readings, the timer is stopped, the counter
      restored and the page asks for the object's weight. */
  lemma EmptyPhase(p: Page, ws: seq<real>)
    requires Valid(p) && p.calibrateStatus == 0 && |ws| == p.readTimes
    ensures Run(p, ws).Success?
    ensures var q := Run(p, ws).value.page;
      && Run(p, ws).value.saved == None
      && q.emptyValue == Processed(TM.ProcessValue(p.emptyValue.values + ws).value)
      && q.objectValue == p.objectValue
      && q.calibrateStatus == 1 && q.readTimes == READ_TIME
      && !q.sumTimerOn && q.view == InputView
      && q.objectWeight == p.objectWeight
      && q.reader.hx == p.reader.hx
  {
    var init := ws[..|ws| - 1];
    var last := ws[|ws| - 1];
    Collect(p, init);
    var r := Record(p, init);
    assert Run(p, ws) == WeightSumHandler(r, last);
    TickEndsEmptyPhase(r, last);
    assert init + [last] == ws;
    assert r.emptyValue.values + [last] == p.emptyValue.values + ws;
  }

  /** The object phase: after its last reading the reference unit is the
      difference of the two trimmed means divided by the object's weight; it
      is installed in the driver and emitted, both lists and the weight are
      cleared, and the page shows the finish view. A zero weight fails. */
  lemma ObjectPhase(p: Page, ws: seq<real>)
    requires Valid(p) && p.calibrateStatus == 1 && |ws| == p.readTimes
    ensures p.objectWeight == 0.0 ==> Run(p, ws) == Failure(ZeroObjectWeight)
    ensures p.objectWeight != 0.0 ==>
      var unit := Quotient(TM.ProcessValue(p.objectValue.values + ws).value, p.emptyValue.mean, p.objectWeight);
      && Run(p, ws).Success?
      && var q := Run(p, ws).value.page;
      && Run(p, ws).value.saved == Some(unit)
      && q.reader.hx == p.reader.hx.(referenceUnit := unit)
      && q.emptyValue == Samples([]) && q.objectValue == Samples([]) && q.objectWeight == 0.0
      && q.calibrateStatus == 0 && q.readTimes == READ_TIME
      && !q.sumTimerOn && q.view == FinishView
  {
    var init := ws[..|ws| - 1];
    var last := ws[|ws| - 1];
    Collect(p, init);
    var r := Record(p, init);
    assert Run(p, ws) == WeightSumHandler(r, last);
    TickEndsObjectPhase(r, last);
    assert init + [last] == ws;
    assert r.objectValue.values + [last] == p.objectValue.values + ws;
    assert r.emptyValue == p.emptyValue && r.objectWeight == p.objectWeight && r.reader.hx == p.reader.hx;
  }

  /** The whole protocol from a fresh page: start, READ_TIME readings of the
      empty scale, the weight confirmed on the keypad, READ_TIME readings of
      the object. The emitted unit is the difference of the two trimmed means
      per unit of weight (so the unit times the weight gives that difference
      back), the driver uses it, and the page is ready to calibrate again. */
  lemma Calibration(p: Page, empty: seq<real>, objectWeight: real, objects: seq<real>)
    requires Fresh(p)
    requires |empty| == READ_TIME && |objects| == READ_TIME
    requires objectWeight != 0.0
    ensures var t1 := Run(ReadEmptyValue(p), empty);
            t1.Success? &&
            var t2 := Run(Confirm(t1.value.page, objectWeight), objects);
            && t2.Success?
            && t2.value.saved == Some(Quotient(TM.ProcessValue(objects).value, TM.ProcessValue(empty).value, objectWeight))
            && t2.value.page.reader.hx.referenceUnit == t2.value.saved.value
            && t2.value.page.view == FinishView
            && Fresh(t2.value.page)
  {
    var p1 := ReadEmptyValue(p);
    EmptyPhase(p1, empty);
    assert p1.emptyValue.values + empty == empty;
    var p2 := Confirm(Run(p1, empty).value.page, objectWeight);
    assert p2.objectValue.values + objects == objects;
    ObjectPhase(p2, objects);
    var o := TM.ProcessValue(objects).value;
    var e := TM.ProcessValue(empty).value;
    assert p2.emptyValue.mean == e && p2.objectWeight == objectWeight;
    assert Run(p2, objects).value.saved == Some(Quotient(o, e, objectWeight));
  }

  /** The same protocol with a zero weight confirmed fails at the division. */
  lemma CalibrationZeroWeight(p: Page, empty: seq<real>, objects: seq<real>)
    requires Fresh(p)
    requires |empty| == READ_TIME && |objects| == READ_TIME
    ensures var t1 := Run(ReadEmptyValue(p), empty);
            t1.Success? && Run(Confirm(t1.value.page, 0.0), objects) == Failure(ZeroObjectWeight)
  {
    var p1 := ReadEmptyValue(p);
    EmptyPhase(p1, empty);
    ObjectPhase(Confirm(Run(p1, empty).value.page, 0.0), objects);
  }
}
