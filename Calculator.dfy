/**
  The boiling-temperature calculator: two linked temperature inputs (Celsius and
  Fahrenheit) that share one authoritative `(temperature, scale)` pair, the conversion
  engine that derives the other field's text, and the boiling verdict.
 */
module TemperatureCalculator {
  import opened Wrappers
  import opened NumberText

  /** The scale of the field that was edited last (`"c"` or `"f"` in the component state). */
  datatype Scale = C | F

  // ---------------------------------------------------------------------------
  // Conversion engine

  function ToFahrenheit(celsius: real): real { celsius * 9.0 / 5.0 + 32.0 }

  function ToCelsius(fahrenheit: real): real { (fahrenheit - 32.0) * (5.0 / 9.0) }

  /** The converter that derives the text of the field on scale `to` from the other field. */
  function ConverterTo(to: Scale): real -> real { if to == C then ToCelsius else ToFahrenheit }

  /** `Math.round`: the nearest integer, a tie going towards +infinity. */
  function MathRound(x: real): (n: int)
    ensures x - 0.5 < n as real <= x + 0.5
  {
    (x + 0.5).Floor
  }

  /** `Math.round(x * 1000) / 1000`: `x` rounded to the nearest multiple of 1/1000. */
  function Round3(x: real): (r: real)
    ensures (r * 1000.0).Floor as real == r * 1000.0
    ensures x - 0.0005 < r <= x + 0.0005
  {
    MathRound(x * 1000.0) as real / 1000.0
  }

  /**
    `tryConvert`: the text of the other field. Empty exactly when `temperature` is not a
    number; otherwise a text that reads back as the converted value rounded to 1/1000.
   */
  function TryConvert(temperature: string, convert: real -> real): (r: string)
    ensures r == "" <==> ParseFloat(temperature).None?
    ensures ParseFloat(temperature).Some? ==>
              ParseFloat(r) == Some(Round3(convert(ParseFloat(temperature).value)))
  {
    match ParseFloat(temperature)
    case None => ""
    case Some(input) =>
      var k := MathRound(convert(input) * 1000.0);
      ParseShowThousandths(k);
      assert Round3(convert(input)) == k as real / 1000.0;
      ShowThousandths(k)
  }

  // ---------------------------------------------------------------------------
  // Boiling verdict

  /** The message `BoilingVerdict` renders: whether water boils at `celsius`. */
  datatype Verdict = Verdict(boils: bool, celsius: real)

  function BoilingVerdict(celsius: real): Verdict {
    Verdict(celsius >= 100.0, celsius)
  }

  /** The verdict under the form: rendered only when the Celsius text is a number. */
  function VerdictFor(celsiusText: string): (v: Option<Verdict>)
    ensures v.Some? <==> ParseFloat(celsiusText).Some?
    ensures v.Some? ==> v.value.celsius == ParseFloat(celsiusText).value
    ensures v.Some? ==> (v.value.boils <==> v.value.celsius >= 100.0)
  {
    match ParseFloat(celsiusText)
    case None => None
    case Some(c) => Some(BoilingVerdict(c))
  }

  // ---------------------------------------------------------------------------
  // Display derivation

  /** What `Calculator.render` puts on screen. */
  datatype CalculatorView = CalculatorView(celsius: string, fahrenheit: string, verdict: Option<Verdict>)

  function FieldOf(v: CalculatorView, field: Scale): string {
    if field == C then v.celsius else v.fahrenheit
  }

  /**
    The text of the input on scale `field`: the authoritative text itself for the
    field that was edited last, the converted text for the other one.
   */
  function Display(temperature: string, scale: Scale, field: Scale): string {
    if field == scale then temperature else TryConvert(temperature, ConverterTo(field))
  }

  function View(temperature: string, scale: Scale): (v: CalculatorView)
    ensures FieldOf(v, scale) == temperature
    ensures forall field :: field != scale ==>
              (FieldOf(v, field) == "" <==> ParseFloat(temperature).None?)
    ensures forall field :: field != scale && ParseFloat(temperature).Some? ==>
              ParseFloat(FieldOf(v, field)) == Some(Round3(ConverterTo(field)(ParseFloat(temperature).value)))
  {
    var celsius := Display(temperature, scale, C);
    CalculatorView(celsius, Display(temperature, scale, F), VerdictFor(celsius))
  }

  /** The Celsius value the pair stands for, as the Celsius field shows it. */
  function CelsiusValue(temperature: string, scale: Scale): Option<real> {
    match ParseFloat(temperature)
    case None => None
    case Some(t) => Some(if scale == C then t else Round3(ToCelsius(t)))
  }

  // ---------------------------------------------------------------------------
  // State

  class Calculator {
    var temperature: string
    var scale: Scale

    constructor ()
      ensures temperature == "" && scale == C
    {
      temperature, scale := "", C;
    }

    method OnCelsiusChange(t: string)
      modifies this
      ensures temperature == t && scale == C
    {
      temperature, scale := t, C;
    }

    method OnFahrenheitChange(t: string)
      modifies this
      ensures temperature == t && scale == F
    {
      temperature, scale := t, F;
    }

    function Render(): CalculatorView
      reads this
    {
      View(temperature, scale)
    }
  }

  /** One input field, bound to the calculator handler for its own scale. */
  class TemperatureInput {
    const scale: Scale
    const calculator: Calculator

    constructor (calculator: Calculator, scale: Scale)
      ensures this.calculator == calculator && this.scale == scale
    {
      this.calculator, this.scale := calculator, scale;
    }

    /** The text the field shows: its `temperature` prop. */
    function Value(): string
      reads this, calculator
    {
      FieldOf(calculator.Render(), scale)
    }

    /** Forwards the raw input text, unmodified, to the handler for this field's scale. */
    method HandleChange(value: string)
      modifies calculator
      ensures calculator.temperature == value && calculator.scale == scale
      ensures Value() == value
    {
      if scale == C {
        calculator.OnCelsiusChange(value);
      } else {
        calculator.OnFahrenheitChange(value);
      }
    }
  }

  // ---------------------------------------------------------------------------
  // Lemmas

  /** The two converters undo each other. */
  lemma ConvertersInverse(x: real)
    ensures ToCelsius(ToFahrenheit(x)) == x
    ensures ToFahrenheit(ToCelsius(x)) == x
  {
  }

  /** Both converters keep order, so boiling in Celsius is boiling in Fahrenheit. */
  lemma ConvertersMonotonic(x: real, y: real)
    ensures x <= y <==> ToFahrenheit(x) <= ToFahrenheit(y)
    ensures x <= y <==> ToCelsius(x) <= ToCelsius(y)
    ensures x >= 100.0 <==> ToFahrenheit(x) >= 212.0
  {
  }

  lemma ConverterLandmarks()
    ensures ToFahrenheit(100.0) == 212.0 && ToCelsius(212.0) == 100.0
    ensures ToFahrenheit(0.0) == 32.0 && ToCelsius(32.0) == 0.0
    ensures ToFahrenheit(-40.0) == -40.0
  {
  }

  /** `Math.round` is determined by its two bounds. */
  lemma MathRoundUnique(x: real, n: int)
    requires x - 0.5 < n as real <= x + 0.5
    ensures n == MathRound(x)
  {
  }

  /** A value already a multiple of 1/1000 is left alone by the rounding. */
  lemma Round3Thousandths(k: int)
    ensures Round3(k as real / 1000.0) == k as real / 1000.0
  {
    MathRoundUnique(k as real, k);
  }

  /**
    The verdict is rendered exactly when the authoritative text is a number, and says
    "boils" exactly when the Celsius value of the pair is at least 100.
   */
  lemma VerdictOfView(temperature: string, scale: Scale)
    ensures View(temperature, scale).verdict.Some? <==> ParseFloat(temperature).Some?
    ensures View(temperature, scale).verdict.Some? ==>
              View(temperature, scale).verdict.value == BoilingVerdict(CelsiusValue(temperature, scale).value)
  {
  }

  /** With no input yet, both fields are empty and no verdict is rendered. */
  lemma InitialView()
    ensures View("", C) == CalculatorView("", "", None)
  {
    ParseRejectsNonNumbers();
  }

  /** Text that is not a number stays in its own field; the other is empty and there is no verdict. */
  lemma InvalidTextView(temperature: string, scale: Scale)
    requires ParseFloat(temperature).None?
    ensures View(temperature, scale).verdict == None
    ensures FieldOf(View(temperature, scale), scale) == temperature
    ensures FieldOf(View(temperature, scale), if scale == C then F else C) == ""
  {
    VerdictOfView(temperature, scale);
  }

  // ---------------------------------------------------------------------------
  // Worked examples

  lemma ShowBoilingPoints()
    ensures ShowThousandths(100000) == "100"
    ensures ShowThousandths(212000) == "212"
  {
    assert NatToString(10) == "10";
    assert NatToString(21) == "21";
  }

  lemma ShowBodyTemperature()
    ensures ShowThousandths(37000) == "37"
    ensures ShowThousandths(98600) == "98.6"
  {
    assert NatToString(98) == "98";
    assert FractionDigits(600) == "6";
  }

  lemma ShowJustBelowBoiling()
    ensures ShowThousandths(99999) == "99.999"
  {
    assert NatToString(99) == "99";
    assert FractionDigits(999) == "999";
  }

  /** Typing 100 in the Celsius field shows 212 in the other and says that water boils. */
  lemma CelsiusBoilingExample()
    ensures View("100", C) == CalculatorView("100", "212", Some(Verdict(true, 100.0)))
  {
    ShowBoilingPoints();
    ParseShowThousandths(100000);
    MathRoundUnique(212000.0, 212000);
  }

  /** Typing 212 in the Fahrenheit field shows 100 in the Celsius field, which boils. */
  lemma FahrenheitBoilingExample()
    ensures View("212", F) == CalculatorView("100", "212", Some(Verdict(true, 100.0)))
  {
    ShowBoilingPoints();
    ParseShowThousandths(212000);
    ParseShowThousandths(100000);
    MathRoundUnique(100000.0, 100000);
  }

  /** 37 degrees Celsius shows as 98.6 degrees Fahrenheit. */
  lemma BodyTemperatureExample()
    ensures View("37", C).fahrenheit == "98.6"
  {
    ShowBodyTemperature();
    ParseShowThousandths(37000);
    MathRoundUnique(98600.0, 98600);
  }

  /** Just below 100 degrees Celsius water does not boil. */
  lemma JustBelowBoilingExample()
    ensures View("99.999", C).verdict == Some(Verdict(false, 99.999))
  {
    ShowJustBelowBoiling();
    ParseShowThousandths(99999);
  }
}
