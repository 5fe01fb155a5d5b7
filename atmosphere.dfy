/**
 * Per-airport observation records and the in-place update of
 * RestWeatherCollectorEndpoint.updateAtmosphericInformation.
 */
module Atmosphere {
  import opened Common
  import opened Measurement

  /** The value held by an AtmosphericInformation record: six slots and one shared timestamp. */
  datatype Observation = Observation(
    wind: Option<DataPoint>,
    temperature: Option<DataPoint>,
    humidity: Option<DataPoint>,
    pressure: Option<DataPoint>,
    cloudCover: Option<DataPoint>,
    precipitation: Option<DataPoint>,
    lastUpdateTime: int)
  {
    /** The slot that holds samples of type `t`. */
    function Slot(t: DataPointType): Option<DataPoint> {
      match t
      case Wind => wind
      case Temperature => temperature
      case Humidty => humidity
      case Pressure => pressure
      case CloudCover => cloudCover
      case Precipitation => precipitation
    }

    /** The record with slot `t` replaced by `dp`; every other slot and the timestamp are kept. */
    function With(t: DataPointType, dp: DataPoint): (r: Observation)
      ensures r.Slot(t) == Some(dp)
      ensures forall u :: u != t ==> r.Slot(u) == Slot(u)
      ensures r.lastUpdateTime == lastUpdateTime
    {
      match t
      case Wind => this.(wind := Some(dp))
      case Temperature => this.(temperature := Some(dp))
      case Humidty => this.(humidity := Some(dp))
      case Pressure => this.(pressure := Some(dp))
      case CloudCover => this.(cloudCover := Some(dp))
      case Precipitation => this.(precipitation := Some(dp))
    }

    /** The record with its timestamp set to `now`; every slot is kept. */
    function Stamped(now: int): (r: Observation)
      ensures forall u :: r.Slot(u) == Slot(u)
      ensures r.lastUpdateTime == now
    {
      this.(lastUpdateTime := now)
    }
  }

  /** A record is fixed by its six slots and its timestamp, so the contracts of With and Stamped say everything. */
  lemma SlotsDetermineObservation(a: Observation, b: Observation)
    requires forall t :: a.Slot(t) == b.Slot(t)
    requires a.lastUpdateTime == b.lastUpdateTime
    ensures a == b
  {
    assert a.Slot(Wind) == b.Slot(Wind);
    assert a.Slot(Temperature) == b.Slot(Temperature);
    assert a.Slot(Humidty) == b.Slot(Humidty);
    assert a.Slot(Pressure) == b.Slot(Pressure);
    assert a.Slot(CloudCover) == b.Slot(CloudCover);
    assert a.Slot(Precipitation) == b.Slot(Precipitation);
  }

  /** Accepting a sample writes only its own slot: the other five are the same before and after. */
  lemma {:induction false} AcceptTouchesOneSlot(obs: Observation, tag: string, dp: DataPoint, now: int, u: DataPointType)
    requires Admitted(tag, dp.mean).Some?
    ensures var r := obs.With(Admitted(tag, dp.mean).value, dp).Stamped(now);
      (Matches(tag, u) ==> r.Slot(u) == Some(dp)) &&
      (!Matches(tag, u) ==> r.Slot(u) == obs.Slot(u))
  {
    var t := Admitted(tag, dp.mean).value;
    if u != t {
      assert MatchedType(tag) == Some(t);
    }
  }

  /** The record a newly created AtmosphericInformation holds: every slot unset, timestamp 0. */
  const Unobserved := Observation(None, None, None, None, None, None, 0)

  /** A mutable observation record; the source's setters assign these fields in place. */
  class AtmosphericInformation {
    var wind: Option<DataPoint>
    var temperature: Option<DataPoint>
    var humidity: Option<DataPoint>
    var pressure: Option<DataPoint>
    var cloudCover: Option<DataPoint>
    var precipitation: Option<DataPoint>
    var lastUpdateTime: int

    /** The record's current value. */
    function Snapshot(): Observation
      reads this
    {
      Observation(wind, temperature, humidity, pressure, cloudCover, precipitation, lastUpdateTime)
    }

    constructor ()
      ensures Snapshot() == Unobserved
    {
      wind, temperature, humidity := None, None, None;
      pressure, cloudCover, precipitation := None, None, None;
      lastUpdateTime := 0;
    }
  }

  /**
   * Applies one sample to `ai`. The first branch whose tag and range both match replaces that
   * slot and stamps the record with `now` (the source reads the clock there); when no branch
   * matches, IllegalStateException is thrown and the record is left as it was.
   */
  method UpdateAtmosphericInformation(ai: AtmosphericInformation, pointType: string, dp: DataPoint, now: int)
    returns (outcome: Outcome<Failure>)
    modifies ai
    ensures outcome == Pass || outcome == Fail(IllegalState)
    ensures outcome.Pass? <==> Admitted(pointType, dp.mean).Some?
    ensures outcome.Pass? ==>
      ai.Snapshot() == old(ai.Snapshot()).With(Admitted(pointType, dp.mean).value, dp).Stamped(now)
    ensures outcome.Fail? ==> ai.Snapshot() == old(ai.Snapshot())
  {
    if EqualsIgnoreCase(pointType, Wind.Name()) && dp.mean >= 0.0 {
      ai.wind := Some(dp);
      ai.lastUpdateTime := now;
      return Pass;
    }
    if EqualsIgnoreCase(pointType, Temperature.Name()) && (dp.mean >= -50.0 && dp.mean < 100.0) {
      ai.temperature := Some(dp);
      ai.lastUpdateTime := now;
      return Pass;
    }
    if EqualsIgnoreCase(pointType, Humidty.Name()) && (dp.mean >= 0.0 && dp.mean < 100.0) {
      ai.humidity := Some(dp);
      ai.lastUpdateTime := now;
      return Pass;
    }
    if EqualsIgnoreCase(pointType, Pressure.Name()) && (dp.mean >= 650.0 && dp.mean < 800.0) {
      ai.pressure := Some(dp);
      ai.lastUpdateTime := now;
      return Pass;
    }
    if EqualsIgnoreCase(pointType, CloudCover.Name()) && (dp.mean >= 0.0 && dp.mean < 100.0) {
      ai.cloudCover := Some(dp);
      ai.lastUpdateTime := now;
      return Pass;
    }
    if EqualsIgnoreCase(pointType, Precipitation.Name()) && (dp.mean >= 0.0 && dp.mean < 100.0) {
      ai.precipitation := Some(dp);
      ai.lastUpdateTime := now;
      return Pass;
    }
    return Fail(IllegalState);
  }
}
