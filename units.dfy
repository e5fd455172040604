/** Length conversion to millimetres. OpenDocument's positiveLength datatype takes its
    units of measure from section 5.9.13 of XSL 1.0: cm, mm, in, pt (1/72 in), pc (12 pt)
    and px, which the renderer fixes at 1/96 in to match SVG; em is read with the px
    factor, as an absolute length. */
module Units {
  import opened Base
  import opened Text

  /** The units, in the order convert_to_mm tests for them. */
  datatype Unit = Cm | Mm | In | Pt | Pc | Px | Em

  function Suffix(u: Unit): (s: string)
    ensures |s| == 2 && IsLowerLetter(s[0]) && IsLowerLetter(s[1])
  {
    match u
    case Cm => "cm"
    case Mm => "mm"
    case In => "in"
    case Pt => "pt"
    case Pc => "pc"
    case Px => "px"
    case Em => "em"
  }

  /** Millimetres per unit, from the definitions: an inch is 25.4 mm, a point 1/72 inch,
      a pica 12 points, a pixel 1/96 inch. */
  function MmPer(u: Unit): real
  {
    match u
    case Cm => 10.0
    case Mm => 1.0
    case In => 25.4
    case Pt => 25.4 / 72.0
    case Pc => 12.0 * (25.4 / 72.0)
    case Px => 25.4 / 96.0
    case Em => 25.4 / 96.0
  }

  /** `value[0:-2]`: the text before the two-character unit. */
  function NumberPart(value: string): string
  {
    if |value| >= 2 then value[..|value| - 2] else []
  }

  function Scaled(value: string, factor: real): Result<Option<real>>
  {
    var n :- ParseFloat(NumberPart(value));
    Ok(Some(n * factor))
  }

  /** convert_to_mm: the first unit (in the order cm, mm, in, pt, pc, px, em) that occurs
      anywhere in the value decides the factor, and the value without its last two
      characters is read as the number. A value containing none of them gives None; a
      malformed number raises. */
  function ConvertToMm(value: string): (r: Result<Option<real>>)
    ensures r == Ok(None) <==> forall u: Unit :: !Contains(value, Suffix(u))
  {
    NoUnitMeansNoSuffix(value);
    if Contains(value, "cm") then Scaled(value, 10.0)
    else if Contains(value, "mm") then Scaled(value, 1.0)
    else if Contains(value, "in") then Scaled(value, 25.4)
    else if Contains(value, "pt") then Scaled(value, 1.0 / 72.0 * 25.4)
    else if Contains(value, "pc") then Scaled(value, 12.0 * (1.0 / 72.0) * 25.4)
    else if Contains(value, "px") then Scaled(value, 1.0 / 96.0 * 2.54 * 10.0)
    else if Contains(value, "em") then Scaled(value, 1.0 / 96.0 * 2.54 * 10.0)
    else Ok(None)
  }

  lemma NoUnitMeansNoSuffix(value: string)
    ensures (forall u: Unit :: !Contains(value, Suffix(u))) <==>
      !Contains(value, "cm") && !Contains(value, "mm") && !Contains(value, "in") &&
      !Contains(value, "pt") && !Contains(value, "pc") && !Contains(value, "px") &&
      !Contains(value, "em")
  {
    if !Contains(value, "cm") && !Contains(value, "mm") && !Contains(value, "in") &&
      !Contains(value, "pt") && !Contains(value, "pc") && !Contains(value, "px") &&
      !Contains(value, "em")
    {
      forall u: Unit ensures !Contains(value, Suffix(u)) {
        match u
        case Cm => case Mm => case In => case Pt => case Pc => case Px => case Em =>
      }
    } else if Contains(value, "cm") {
      assert Contains(value, Suffix(Cm));
    } else if Contains(value, "mm") {
      assert Contains(value, Suffix(Mm));
    } else if Contains(value, "in") {
      assert Contains(value, Suffix(In));
    } else if Contains(value, "pt") {
      assert Contains(value, Suffix(Pt));
    } else if Contains(value, "pc") {
      assert Contains(value, Suffix(Pc));
    } else if Contains(value, "px") {
      assert Contains(value, Suffix(Px));
    } else {
      assert Contains(value, Suffix(Em));
    }
  }

  lemma {:induction false} NotContainedInShorter(s: string, t: string)
    requires |s| < |t|
    ensures !Contains(s, t)
    decreases |s|
  {
    if |s| > 0 {
      NotContainedInShorter(s[1..], t);
    }
  }

  /** In a letter-free number followed by a two-letter unit, the only two-letter word
      that occurs is the unit itself. */
  lemma {:induction false} OnlyTheUnitOccurs(number: string, suffix: string, w: string)
    requires forall i :: 0 <= i < |number| ==> !IsAsciiLetter(number[i])
    requires |suffix| == 2 && |w| == 2 && IsLowerLetter(w[0])
    ensures Contains(number + suffix, w) <==> suffix == w
    decreases |number|
  {
    var s := number + suffix;
    if number == [] {
      assert s == suffix;
      NotContainedInShorter(s[1..], w);
      assert StartsWith(s, w) <==> suffix == w;
    } else {
      assert s[0] == number[0];
      assert !StartsWith(s, w);
      assert s[1..] == number[1..] + suffix;
      OnlyTheUnitOccurs(number[1..], suffix, w);
    }
  }

  /** A well-formed length (a number that float() accepts followed by one of the seven
      units) converts to that number times the unit's size in millimetres. */
  lemma ConvertLength(number: string, u: Unit)
    requires ParseFloat(number).Ok?
    ensures ConvertToMm(number + Suffix(u)) == Ok(Some(ParseFloat(number).value * MmPer(u)))
  {
    ParsedNumberHasNoLetters(number);
    var value := number + Suffix(u);
    assert NumberPart(value) == number;
    ConvertFactor(number, u);
  }

  /** A letter-free number followed by a unit converts with that unit's factor. */
  lemma ConvertFactor(number: string, u: Unit)
    requires forall i :: 0 <= i < |number| ==> !IsAsciiLetter(number[i])
    ensures ConvertToMm(number + Suffix(u)) == Scaled(number + Suffix(u), MmPer(u))
  {
    var suffix := Suffix(u);
    OnlyTheUnitOccurs(number, suffix, "cm");
    OnlyTheUnitOccurs(number, suffix, "mm");
    OnlyTheUnitOccurs(number, suffix, "in");
    OnlyTheUnitOccurs(number, suffix, "pt");
    OnlyTheUnitOccurs(number, suffix, "pc");
    OnlyTheUnitOccurs(number, suffix, "px");
    OnlyTheUnitOccurs(number, suffix, "em");
  }

  /** How many of each unit make an inch (cm and mm do not divide it evenly). */
  function PerInch(u: Unit): nat
  {
    match u
    case Cm => 0
    case Mm => 0
    case In => 1
    case Pt => 72
    case Pc => 6
    case Px => 96
    case Em => 96
  }

  /** An inch written in inches, points, picas, pixels or ems converts to 25.4 mm. */
  lemma OneInchInEveryUnit(u: Unit)
    requires u != Cm && u != Mm
    ensures ConvertToMm(Decimal(PerInch(u)) + Suffix(u)) == Ok(Some(25.4))
  {
    ParseFloatOfDecimal(PerInch(u));
    ConvertLength(Decimal(PerInch(u)), u);
  }

  /** A value without any of the seven units, such as a bare number or a percentage,
      gives None rather than a length. */
  lemma UnitlessValueGivesNone()
    ensures ConvertToMm("12") == Ok(None)
    ensures ConvertToMm("50%") == Ok(None)
  {
    forall u: Unit ensures !Contains("12", Suffix(u)) {
      OnlyTheUnitOccurs("", "12", Suffix(u));
      assert "" + "12" == "12";
    }
    forall u: Unit ensures !Contains("50%", Suffix(u)) {
      OnlyTheUnitOccurs("5", "0%", Suffix(u));
      assert "5" + "0%" == "50%";
    }
  }
}
