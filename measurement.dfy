/**
 * Measurement types, samples, and the acceptance rule of
 * RestWeatherCollectorEndpoint.updateAtmosphericInformation.
 */
module Measurement {
  import opened Common

  /** A statistical summary reported for one measurement type; only `mean` gates acceptance. */
  datatype DataPoint = DataPoint(first: real, last: real, mean: real, median: real, count: int)

  /** The DataPointType constants, in the order the update rule tries them. */
  datatype DataPointType = Wind | Temperature | Humidty | Pressure | CloudCover | Precipitation
  {
    /** The constant's name(), spelled as the source spells it (HUMIDTY, not HUMIDITY). */
    function Name(): (n: string)
      ensures IsUpperAscii(n) && |n| > 0
    {
      match this
      case Wind => "WIND"
      case Temperature => "TEMPERATURE"
      case Humidty => "HUMIDTY"
      case Pressure => "PRESSURE"
      case CloudCover => "CLOUDCOVER"
      case Precipitation => "PRECIPITATION"
    }
  }

  predicate IsUpperAscii(s: string) {
    forall i :: 0 <= i < |s| ==> 'A' <= s[i] <= 'Z'
  }

  /**
   * Java's char comparison in String.equalsIgnoreCase against an upper-case ASCII letter `u`:
   * equal, equal after toUpperCase, or equal after toLowerCase of the upper-cased chars.
   * Besides `u` and its lower-case form, that admits U+0130 and U+0131 for 'I',
   * U+212A (Kelvin sign) for 'K' and U+017F (long s) for 'S'.
   */
  predicate CharEqualsIgnoreCase(c: char, u: char): (r: bool)
    requires 'A' <= u <= 'Z'
    ensures 'A' <= c <= 'Z' ==> (r <==> c == u)
    ensures 'a' <= c <= 'z' ==> (r <==> c as int - 32 == u as int)
    ensures r && c as int >= 128 ==> u == 'I' || u == 'K' || u == 'S'
  {
    || c == u
    || c as int == u as int + 32
    || (u == 'I' && (c == '\U{130}' || c == '\U{131}'))
    || (u == 'K' && c == '\U{212A}')
    || (u == 'S' && c == '\U{17F}')
  }

  /** `s.equalsIgnoreCase(name)` for a name made of upper-case ASCII letters. */
  predicate EqualsIgnoreCase(s: string, name: string): (r: bool)
    requires IsUpperAscii(name)
    ensures s == name ==> r
    ensures r ==> |s| == |name|
  {
    |s| == |name| && forall i :: 0 <= i < |s| ==> CharEqualsIgnoreCase(s[i], name[i])
  }

  /** The tag names measurement type `t`. */
  predicate Matches(tag: string, t: DataPointType) {
    EqualsIgnoreCase(tag, t.Name())
  }

  /** The plausible range of `mean` for each type: lower bounds inclusive, upper bounds exclusive. */
  predicate InRange(t: DataPointType, mean: real): (r: bool)
    ensures r ==> mean >= -50.0
    ensures r && t != Wind ==> mean < 800.0
    ensures r && t != Pressure ==> mean >= 0.0 || t == Temperature
  {
    match t
    case Wind => mean >= 0.0
    case Temperature => -50.0 <= mean < 100.0
    case Humidty => 0.0 <= mean < 100.0
    case Pressure => 650.0 <= mean < 800.0
    case CloudCover => 0.0 <= mean < 100.0
    case Precipitation => 0.0 <= mean < 100.0
  }

  /** The measurement type a tag names, if any; no tag names two types. */
  function MatchedType(tag: string): (r: Option<DataPointType>)
    ensures forall t :: r == Some(t) <==> Matches(tag, t)
  {
    if Matches(tag, Wind) then Some(Wind)
    else if Matches(tag, Temperature) then Some(Temperature)
    else if Matches(tag, Humidty) then Some(Humidty)
    else if Matches(tag, Pressure) then Some(Pressure)
    else if Matches(tag, CloudCover) then Some(CloudCover)
    else if Matches(tag, Precipitation) then Some(Precipitation)
    else None
  }

  /**
   * The slot a sample with this tag and mean is written to, or None when it is rejected:
   * accepted exactly when the tag names some type and the mean lies in that type's range.
   */
  function Admitted(tag: string, mean: real): (r: Option<DataPointType>)
    ensures r.Some? <==> exists t :: Matches(tag, t) && InRange(t, mean)
    ensures r.Some? ==> Matches(tag, r.value) && InRange(r.value, mean)
  {
    match MatchedType(tag)
    case None => None
    case Some(t) => if InRange(t, mean) then Some(t) else None
  }

  /** Tags are compared ignoring case, and the humidity tag is the source's own spelling. */
  lemma TagSpelling()
    ensures Admitted("wind", 4.0) == Some(Wind)
    ensures Admitted("Humidty", 50.0) == Some(Humidty)
    ensures MatchedType("HUMIDITY") == None
    ensures MatchedType("w\U{131}nd") == Some(Wind)
  {
    assert Matches("wind", Wind);
    assert Matches("Humidty", Humidty);
    assert Matches("w\U{131}nd", Wind);
    // only PRESSURE has the same length as HUMIDITY, and the first letters differ
    assert !CharEqualsIgnoreCase("HUMIDITY"[0], Pressure.Name()[0]);
  }

  /** A tag that matches but a mean outside the range is rejected. */
  lemma RangeScenarios()
    ensures Admitted("TEMPERATURE", 150.0) == None
    ensures Admitted("pressure", 700.0) == Some(Pressure)
    ensures Admitted("pressure", 900.0) == None
  {
    assert Matches("TEMPERATURE", Temperature);
    assert Matches("pressure", Pressure);
  }
}
