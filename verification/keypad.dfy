/** `KeyBoard.command_handler`: the on-screen keypad on which the operator
    types the calibration object's weight. The buffer is the text typed so
    far; Confirm converts it with Python's `float()`. */
module Keypad {
  import opened Wrappers
  import opened Decimal

  /** The keypad's four commands: a digit key, the decimal point, delete, confirm. */
  datatype Command = Num(digit: Digit) | Dot | Del | Confirm

  /** `float()` raising ValueError on a buffer that is not a number. */
  datatype ParseError = NotANumber

  /** The buffer after a key press, and the weight a Confirm hands on. */
  datatype Pressed = Pressed(output: string, confirmed: Option<real>)

  predicate IsKey(c: char) {
    IsDigit(c) || c == '.'
  }

  function Last(s: string): char
    requires |s| > 0
  {
    s[|s| - 1]
  }

  function Init(s: string): string
    requires |s| > 0
  {
    s[..|s| - 1]
  }

  function DotCount(s: string): nat {
    if |s| == 0 then 0 else DotCount(Init(s)) + (if Last(s) == '.' then 1 else 0)
  }

  function DigitCount(s: string): nat {
    if |s| == 0 then 0 else DigitCount(Init(s)) + (if IsDigit(Last(s)) then 1 else 0)
  }

  /** The digits of the buffer read as one whole number, the point ignored. */
  function Mantissa(s: string): nat {
    if |s| == 0 then 0
    else if IsDigit(Last(s)) then 10 * Mantissa(Init(s)) + DigitValue(Last(s))
    else Mantissa(Init(s))
  }

  /** How many digits follow the point (0 when there is no point). */
  function FracLen(s: string): nat {
    if |s| == 0 || Last(s) == '.' then 0
    else if DotCount(Init(s)) > 0 then FracLen(Init(s)) + 1
    else 0
  }

  /** `m` with the point moved `places` digits to the left: m / 10^places. */
  function Scaled(m: nat, places: nat): (r: real)
    ensures r >= 0.0
    ensures m == 0 ==> r == 0.0
  {
    if places == 0 then m as real else Scaled(m, places - 1) / 10.0
  }

  /** What the keypad can build: digits and at most one decimal point. */
  predicate WellFormed(s: string) {
    && (forall i :: 0 <= i < |s| ==> IsKey(s[i]))
    && DotCount(s) <= 1
  }

  /** Python's `float()` on a buffer of keypad characters: "", "." and
      anything with a second point are not numbers; otherwise the digits
      scaled by the number of places after the point ("12.5", "5.", ".5"). */
  function Parse(s: string): (r: Option<real>)
    ensures r.Some? <==> WellFormed(s) && DigitCount(s) > 0
    ensures r.Some? ==> r.value >= 0.0
  {
    if WellFormed(s) && DigitCount(s) > 0 then
      Some(Scaled(Mantissa(s), FracLen(s)))
    else None
  }

  lemma Snoc(s: string, c: char)
    ensures Init(s + [c]) == s && Last(s + [c]) == c
  {
    assert (s + [c])[..|s|] == s;
  }

  lemma SnocWellFormed(s: string, c: char)
    requires WellFormed(s) && IsKey(c)
    requires c == '.' ==> DotCount(s) == 0
    ensures WellFormed(s + [c])
  {
    Snoc(s, c);
  }

  lemma InitWellFormed(s: string)
    requires WellFormed(s) && |s| > 0
    ensures WellFormed(Init(s))
  {
  }

  /** One key press. Digits append; the point appends only when the buffer has
      none; Del drops the last character and ignores an empty buffer; Confirm
      hands on the parsed buffer, or fails on one that is not a number. */
  function Press(output: string, cmd: Command): (r: Result<Pressed, ParseError>)
    ensures r.Failure? <==> cmd.Confirm? && Parse(output).None?
    ensures r.Success? ==> (r.value.confirmed.Some? <==> cmd.Confirm?)
    ensures r.Success? && cmd.Confirm? ==>
      r.value.output == output && r.value.confirmed == Parse(output)
    ensures cmd.Num? ==> r.Success?
    ensures cmd.Num? ==>
      |r.value.output| == |output| + 1 && r.value.output[..|output|] == output && r.value.output[|output|] == DigitChar(cmd.digit)
    ensures cmd.Dot? ==> r.Success?
    ensures cmd.Dot? && DotCount(output) == 0 ==>
      |r.value.output| == |output| + 1 && r.value.output[..|output|] == output && r.value.output[|output|] == '.'
    ensures cmd.Dot? && DotCount(output) > 0 ==> r.value.output == output
    ensures cmd.Del? ==> r.Success?
    ensures cmd.Del? && |output| > 0 ==>
      |r.value.output| == |output| - 1 && r.value.output == output[..|output| - 1]
    ensures cmd.Del? && |output| == 0 ==> r.value.output == output
  {
    match cmd
    case Num(d) =>
      Success(Pressed(output + [DigitChar(d)], None))
    case Dot =>
      if DotCount(output) == 0 then
        Success(Pressed(output + ".", None))
      else Success(Pressed(output, None))
    case Del =>
      if |output| > 0 then
        Success(Pressed(Init(output), None))
      else Success(Pressed(output, None))
    case Confirm =>
      match Parse(output)
      case None => Failure(NotANumber)
      case Some(w) => Success(Pressed(output, Some(w)))
  }

  /** Every key press keeps the buffer to digits and at most one point. */
  lemma PressKeepsWellFormed(output: string, cmd: Command)
    requires WellFormed(output)
    ensures Press(output, cmd).Success? ==> WellFormed(Press(output, cmd).value.output)
  {
    match cmd
    case Num(d) => Snoc(output, DigitChar(d));
    case Dot => Snoc(output, '.');
    case Del =>
    case Confirm =>
  }

  /** The buffer after a run of key presses; a failed Confirm stops the run. */
  function PressAll(output: string, cmds: seq<Command>): Result<Pressed, ParseError>
    decreases |cmds|
  {
    if |cmds| == 0 then Success(Pressed(output, None))
    else
      var p :- Press(output, cmds[0]);
      if |cmds| == 1 then Success(p) else PressAll(p.output, cmds[1..])
  }

  /** Whatever is pressed, the buffer never holds a second point or any
      character other than a digit or a point. */
  lemma {:induction false} NeverTwoDots(output: string, cmds: seq<Command>)
    requires WellFormed(output)
    ensures PressAll(output, cmds).Success? ==> WellFormed(PressAll(output, cmds).value.output)
    ensures PressAll(output, cmds).Success? ==> DotCount(PressAll(output, cmds).value.output) <= 1
    decreases |cmds|
  {
    if |cmds| > 1 {
      var r := Press(output, cmds[0]);
      if r.Success? {
        PressKeepsWellFormed(output, cmds[0]);
        NeverTwoDots(r.value.output, cmds[1..]);
      }
    }
  }

  /** Del undoes a digit. */
  lemma DelUndoesNum(output: string, d: Digit)
    ensures Press(Press(output, Num(d)).value.output, Del) == Success(Pressed(output, None))
  {
    Snoc(output, DigitChar(d));
  }

  /** Del undoes a point typed into a buffer that had none; a second point changes nothing. */
  lemma DotOnce(output: string)
    requires DotCount(output) == 0
    ensures Press(Press(output, Dot).value.output, Del) == Success(Pressed(output, None))
    ensures Press(Press(output, Dot).value.output, Dot) == Press(output, Dot)
  {
    Snoc(output, '.');
  }

  /** Del on an empty buffer leaves it empty. */
  lemma DelOnEmpty()
    ensures Press("", Del) == Success(Pressed("", None))
  {
  }

  /** Confirm on a buffer the keypad built fails exactly when no digit has
      been typed: the empty buffer and a lone point. */
  lemma ConfirmNeedsDigit(output: string)
    requires WellFormed(output)
    ensures Press(output, Confirm).Failure? <==> DigitCount(output) == 0
    ensures Press("", Confirm).Failure? && Press(".", Confirm).Failure?
  {
    Snoc("", '.');
    assert "" + ['.'] == ".";
  }

  /** Typing a digit appends it to the mantissa, one more place after the point if there is one. */
  lemma AppendDigit(output: string, d: Digit)
    requires WellFormed(output)
    ensures Mantissa(output + [DigitChar(d)]) == 10 * Mantissa(output) + d
    ensures FracLen(output + [DigitChar(d)]) == FracLen(output) + (if DotCount(output) > 0 then 1 else 0)
    ensures Parse(output + [DigitChar(d)]).Some?
  {
    Snoc(output, DigitChar(d));
    SnocWellFormed(output, DigitChar(d));
    FracLenWithoutDot(output);
  }

  lemma {:induction false} FracLenWithoutDot(s: string)
    ensures DotCount(s) == 0 ==> FracLen(s) == 0
  {
  }

  lemma MantissaZero(s: string)
    ensures DigitCount(s) == 0 ==> Mantissa(s) == 0
  {
  }

  /** Before the point, a typed digit shifts the number one place left (an
      empty buffer counts as 0). */
  lemma AppendWholeDigit(output: string, d: Digit)
    requires WellFormed(output) && DotCount(output) == 0
    ensures Parse(output + [DigitChar(d)]).Some?
    ensures Parse(output + [DigitChar(d)]).value == 10.0 * Parse(output).GetOr(0.0) + d as real
  {
    AppendDigit(output, d);
    FracLenWithoutDot(output);
    MantissaZero(output);
  }

  /** After the point, a typed digit lands at the next decimal place,
      worth d / 10^(places after the point); a lone point counts as 0. */
  lemma AppendFractionDigit(output: string, d: Digit)
    requires WellFormed(output) && DotCount(output) == 1
    ensures Parse(output + [DigitChar(d)]).Some?
    ensures Parse(output + [DigitChar(d)]).value
         == Parse(output).GetOr(0.0) + Scaled(d, FracLen(output) + 1)
  {
    AppendDigit(output, d);
    MantissaZero(output);
    ScaledStep(Mantissa(output), d, FracLen(output));
  }

  lemma {:induction false} ScaledStep(m: nat, d: Digit, places: nat)
    ensures Scaled(10 * m + d, places + 1) == Scaled(m, places) + Scaled(d, places + 1)
  {
    if places > 0 {
      ScaledStep(m, d, places - 1);
    }
  }

  /** The point itself adds nothing: the number is the same until a digit follows it. */
  lemma AppendDot(output: string)
    requires WellFormed(output) && DotCount(output) == 0 && DigitCount(output) > 0
    ensures Parse(output + ".") == Parse(output)
  {
    Snoc(output, '.');
    SnocWellFormed(output, '.');
    FracLenWithoutDot(output);
  }

  /** The buffer "12.5" reads as 12.5, built up one typed character at a time. */
  lemma ParseTwelvePointFive()
    ensures Parse("12.5") == Some(12.5)
  {
    assert "" + [DigitChar(1)] == "1";
    AppendWholeDigit("", 1);
    assert "1" + [DigitChar(2)] == "12";
    AppendWholeDigit("1", 2);
    AppendDot("12");
    assert "12" + "." == "12.";
    assert "12." + [DigitChar(5)] == "12.5";
    AppendFractionDigit("12.", 5);
    assert FracLen("12.") == 0;
    assert Scaled(5, 1) == 0.5;
  }

  /** A run of presses is its first press followed by the rest of the run. */
  lemma PressAllCons(output: string, cmd: Command, rest: seq<Command>)
    requires |rest| > 0 && Press(output, cmd).Success?
    ensures PressAll(output, [cmd] + rest) == PressAll(Press(output, cmd).value.output, rest)
  {
    assert ([cmd] + rest)[1..] == rest;
  }

  /** Typing 1, 2, point, 5 and confirming hands on 12.5. */
  lemma TwelvePointFive()
    ensures PressAll("", [Num(1), Num(2), Dot, Num(5), Confirm]) == Success(Pressed("12.5", Some(12.5)))
  {
    ParseTwelvePointFive();
    assert PressAll("12.5", [Confirm]) == Success(Pressed("12.5", Some(12.5)));
    assert Press("12.", Num(5)).value.output == "12.5" by {
      assert "12." + [DigitChar(5)] == "12.5";
    }
    PressAllCons("12.", Num(5), [Confirm]);
    assert Press("12", Dot).value.output == "12." by {
      assert DotCount("12") == 0;
      assert "12" + "." == "12.";
    }
    PressAllCons("12", Dot, [Num(5), Confirm]);
    assert Press("1", Num(2)).value.output == "12" by {
      assert "1" + [DigitChar(2)] == "12";
    }
    PressAllCons("1", Num(2), [Dot, Num(5), Confirm]);
    assert Press("", Num(1)).value.output == "1" by {
      assert "" + [DigitChar(1)] == "1";
    }
    PressAllCons("", Num(1), [Num(2), Dot, Num(5), Confirm]);
    assert [Num(1)] + [Num(2), Dot, Num(5), Confirm] == [Num(1), Num(2), Dot, Num(5), Confirm];
  }
}
