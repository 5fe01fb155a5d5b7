/**
 * RestWeatherCollectorEndpoint: the airport list and the observation list it shares with the
 * query endpoint, and the operations that read and change them.
 */
module Collector {
  import opened Common
  import opened Measurement
  import opened Atmosphere
  import opened Registry

  /** An already-parsed line of the seed file: code, latitude, longitude. */
  datatype Seed = Seed(code: string, latitude: real, longitude: real)

  /** The HTTP statuses REST addAirport can answer with. */
  datatype Status = Ok | NotAcceptable

  /** The entry addAirport builds: it sets the latitude twice, so the longitude stays unset. */
  function NewEntry(code: string, latitude: real, longitude: real): AirportData {
    AirportData(code, longitude, UnsetCoordinate)
  }

  /** The latitude argument is lost: entries built with different latitudes are the same. */
  lemma LatitudeIgnored(code: string, a: real, b: real, longitude: real)
    ensures NewEntry(code, a, longitude) == NewEntry(code, b, longitude)
  {
  }

  /** The airport list that replaying `seeds` through addAirport produces: one entry per triple, with its code. */
  function SeedEntries(seeds: seq<Seed>): (r: seq<AirportData>)
    ensures |r| == |seeds|
    ensures forall i :: 0 <= i < |seeds| ==> r[i].iata == seeds[i].code
  {
    if |seeds| == 0 then []
    else
      var last := seeds[|seeds| - 1];
      SeedEntries(seeds[..|seeds| - 1]) + [NewEntry(last.code, last.latitude, last.longitude)]
  }

  /** The seeded list has one entry per triple, in order, with that triple's code and its longitude as latitude. */
  lemma {:induction false} SeedEntriesAt(seeds: seq<Seed>, i: nat)
    requires i < |seeds|
    ensures |SeedEntries(seeds)| == |seeds|
    ensures SeedEntries(seeds)[i] == AirportData(seeds[i].code, seeds[i].longitude, UnsetCoordinate)
  {
    var n := |seeds| - 1;
    if i < n {
      SeedEntriesAt(seeds[..n], i);
    } else if n > 0 {
      SeedEntriesAt(seeds[..n], 0);
    }
  }

  /** The iata check of REST addAirport as written: `length != 3 || length != 4`. */
  predicate IataLengthRejected(iata: string): (r: bool)
    ensures |iata| == 3 ==> r
    ensures |iata| == 4 ==> r
  {
    |iata| != 3 || |iata| != 4
  }

  /** No string passes the check, so REST addAirport never reaches the registry. */
  lemma IataLengthAlwaysRejected(iata: string)
    ensures IataLengthRejected(iata)
  {
  }

  /**
   * The process-wide state: the airport list and the observation list, which the source
   * keeps as static lists of RestWeatherQueryEndpoint. Lookups resolve an airport code to a
   * position in `airportData` and read the record at that position of `atmosphericInformation`.
   */
  class Endpoint {
    var airportData: seq<AirportData>
    var atmosphericInformation: seq<AtmosphericInformation>

    /** The static initializer: the lists start empty and init replays the seed file. */
    constructor (seeds: seq<Seed>)
      ensures airportData == SeedEntries(seeds)
      ensures atmosphericInformation == []
    {
      airportData := [];
      atmosphericInformation := [];
      new;
      Init(seeds);
    }

    /** The observation record an update for `code` is applied to, if the code resolves to one. */
    function Target(code: string): (r: Option<AtmosphericInformation>)
      reads this
      ensures r.Some? <==> IndexOfCode(airportData, code).Some? && IndexOfCode(airportData, code).value < |atmosphericInformation|
      ensures r.Some? ==> r.value == atmosphericInformation[IndexOfCode(airportData, code).value]
      ensures code !in Codes(airportData) ==> r.None?
    {
      match IndexOfCode(airportData, code)
      case None => None
      case Some(i) => if i < |atmosphericInformation| then Some(atmosphericInformation[i]) else None
    }

    /** No record appears twice in the observation list. */
    predicate DistinctObservations()
      reads this
    {
      forall i, j :: 0 <= i < j < |atmosphericInformation| ==> atmosphericInformation[i] != atmosphericInformation[j]
    }

    /** getAirports: the set of codes in the airport list, built by one pass over it. */
    method GetAirports() returns (codes: set<string>)
      ensures codes == Codes(airportData)
    {
      codes := {};
      for i := 0 to |airportData|
        invariant codes == Codes(airportData[..i])
      {
        assert airportData[..i + 1] == airportData[..i] + [airportData[i]];
        CodesAppend(airportData[..i], airportData[i]);
        codes := codes + {airportData[i].iata};
      }
      assert airportData[..|airportData|] == airportData;
    }

    /**
     * addDataPoint: resolves the code to an index and applies the sample to the record at
     * that index. Only that record can change; the lists themselves are left as they were.
     */
    method AddDataPoint(iataCode: string, pointType: string, dp: DataPoint, now: int)
      returns (outcome: Outcome<Failure>)
      modifies atmosphericInformation
      ensures airportData == old(airportData) && atmosphericInformation == old(atmosphericInformation)
      ensures IndexOfCode(airportData, iataCode).None? ==> outcome == Fail(AirportNotFound)
      ensures IndexOfCode(airportData, iataCode).Some? && Target(iataCode).None? ==>
        outcome == Fail(IndexOutOfBounds)
      ensures Target(iataCode).Some? ==>
        var ai := Target(iataCode).value;
        && (outcome.Pass? <==> Admitted(pointType, dp.mean).Some?)
        && (outcome.Pass? ==>
              ai.Snapshot() == old(ai.Snapshot()).With(Admitted(pointType, dp.mean).value, dp).Stamped(now))
        && (outcome.Fail? ==> outcome == Fail(IllegalState) && ai.Snapshot() == old(ai.Snapshot()))
      ensures forall j :: 0 <= j < |atmosphericInformation| && Target(iataCode) != Some(atmosphericInformation[j]) ==>
        atmosphericInformation[j].Snapshot() == old(atmosphericInformation[j].Snapshot())
      ensures DistinctObservations() && Target(iataCode).Some? ==>
        forall j :: 0 <= j < |atmosphericInformation| && j != IndexOfCode(airportData, iataCode).value ==>
          atmosphericInformation[j].Snapshot() == old(atmosphericInformation[j].Snapshot())
    {
      var idx := IndexOfCode(airportData, iataCode);
      if idx.None? {
        return Fail(AirportNotFound);
      }
      if idx.value >= |atmosphericInformation| {
        return Fail(IndexOutOfBounds);
      }
      var ai := atmosphericInformation[idx.value];
      outcome := UpdateAtmosphericInformation(ai, pointType, dp, now);
    }

    /**
     * Static addAirport: builds an entry, appends it without looking for duplicates, and
     * returns it. The second setLatitude call stores the longitude argument as latitude.
     * No observation record is added.
     */
    method AddAirport(iataCode: string, latitude: real, longitude: real) returns (ad: AirportData)
      modifies this`airportData
      ensures ad.iata == iataCode && ad.latitude == longitude && ad.longitude == UnsetCoordinate
      ensures airportData == old(airportData) + [ad]
      ensures atmosphericInformation == old(atmosphericInformation)
    {
      ad := AirportData("", UnsetCoordinate, UnsetCoordinate);
      ad := ad.(iata := iataCode);
      ad := ad.(latitude := latitude);
      ad := ad.(latitude := longitude);
      airportData := airportData + [ad];
    }

    /**
     * deleteAirportData: collects the entries with code `iata` and, when there are any,
     * removes them all. The observation list is not touched.
     */
    method DeleteAirportData(iata: string)
      modifies this`airportData
      ensures airportData == Retain(old(airportData), iata)
      ensures atmosphericInformation == old(atmosphericInformation)
    {
      var list := Matching(airportData, iata);
      if |list| != 0 {
        RemoveMatchingIsRetain(airportData, iata);
        airportData := RemoveAll(airportData, list);
      } else {
        RetainAbsent(airportData, iata);
      }
    }

    /**
     * init: clears both lists, then adds one airport per seed triple, in order. The triples
     * come already parsed; no observation record is created for them.
     */
    method Init(seeds: seq<Seed>)
      modifies this
      ensures airportData == SeedEntries(seeds)
      ensures atmosphericInformation == []
    {
      airportData := [];
      atmosphericInformation := [];
      var i := 0;
      while i < |seeds|
        invariant 0 <= i <= |seeds|
        invariant airportData == SeedEntries(seeds[..i])
        invariant atmosphericInformation == []
      {
        var ad := AddAirport(seeds[i].code, seeds[i].latitude, seeds[i].longitude);
        assert seeds[..i + 1][..i] == seeds[..i];
        i := i + 1;
      }
      assert seeds[..i] == seeds;
    }

    /**
     * REST addAirport. `parsedLat` is Double.valueOf(latString), None when it throws; the
     * source parses latString a second time for the longitude. Either way the answer is
     * NOT_ACCEPTABLE and the registry is not touched.
     */
    method RestAddAirport(iata: string, parsedLat: Option<real>) returns (status: Status)
      ensures status == NotAcceptable
    {
      if parsedLat.None? {
        return NotAcceptable;
      }
      var lat, log := parsedLat.value, parsedLat.value;
      if IataLengthRejected(iata) {
        return NotAcceptable;
      }
      assert false;
    }
  }

  /**
   * After the static initializer every submission fails, because no observation record exists:
   * a seeded code resolves to an index without a record, any other code is not found.
   */
  method SubmitAfterStartup(seeds: seq<Seed>, iataCode: string, pointType: string, dp: DataPoint, now: int)
    returns (outcome: Outcome<Failure>)
    ensures outcome == Fail(AirportNotFound) || outcome == Fail(IndexOutOfBounds)
    ensures outcome == Fail(IndexOutOfBounds) <==> exists i :: 0 <= i < |seeds| && seeds[i].code == iataCode
  {
    var e := new Endpoint(seeds);
    if exists i :: 0 <= i < |seeds| && seeds[i].code == iataCode {
      var i :| 0 <= i < |seeds| && seeds[i].code == iataCode;
      assert e.airportData[i].iata == iataCode;
    } else {
      assert iataCode !in Codes(e.airportData);
    }
    outcome := e.AddDataPoint(iataCode, pointType, dp, now);
  }

  /** Registering an airport and submitting a valid sample for it fails: addAirport adds no record. */
  method RegisterThenSubmit(now: int) returns (outcome: Outcome<Failure>)
    ensures outcome == Fail(IndexOutOfBounds)
  {
    var e := new Endpoint([]);
    var bos := e.AddAirport("BOS", 42.36, -71.06);
    outcome := e.AddDataPoint("BOS", "WIND", DataPoint(0.0, 10.0, 4.0, 4.0, 10), now);
  }

  /**
   * Register an airport, give it a record by placing one in the observation list directly
   * (standing for the query side, which is not part of this model), submit samples; then
   * delete it and look it up again.
   */
  method BostonScenario(now: int) returns (wind: Outcome<Failure>, hot: Outcome<Failure>, unknown: Outcome<Failure>, deleted: Outcome<Failure>)
    ensures wind == Pass
    ensures hot == Fail(IllegalState)
    ensures unknown == Fail(AirportNotFound)
    ensures deleted == Fail(AirportNotFound)
  {
    var e := new Endpoint([]);
    var bos := e.AddAirport("BOS", 42.36, -71.06);
    var ai := new AtmosphericInformation();
    e.atmosphericInformation := [ai];
    assert e.Target("BOS") == Some(ai);
    wind := e.AddDataPoint("BOS", "WIND", DataPoint(0.0, 10.0, 4.0, 4.0, 10), now);
    assert Matches("WIND", Wind);
    assert ai.wind == Some(DataPoint(0.0, 10.0, 4.0, 4.0, 10));
    hot := e.AddDataPoint("BOS", "TEMPERATURE", DataPoint(0.0, 10.0, 150.0, 4.0, 10), now);
    assert ai.temperature == None;
    unknown := e.AddDataPoint("ZZZ", "WIND", DataPoint(0.0, 10.0, 4.0, 4.0, 10), now);
    e.DeleteAirportData("BOS");
    LookupAfterRetain([bos], "BOS");
    deleted := e.AddDataPoint("BOS", "WIND", DataPoint(0.0, 10.0, 4.0, 4.0, 10), now);
  }
}
