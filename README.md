# Weather collector: a verified model

This project models the in-memory core of the weather collection service's collector endpoint
(`RestWeatherCollectorEndpoint`). It covers three things:

- the rule that applies a reported sample to an airport's observation record;
- the airport list the endpoint shares with the query side, and its add, delete and list operations;
- the dispatch that resolves an airport code to its observation record.

Modules, one per component:

- `Common` (common.dfy): `Option`, `Outcome` (normal return or a thrown exception) and the `Failure` kinds.
- `Measurement` (measurement.dfy): samples (`DataPoint`) and the measurement types (`DataPointType`).
  It also holds Java's `equalsIgnoreCase` against a constant's name, the range table, and the
  specification function `Admitted`, which says which slot a sample goes to or that it is rejected.
- `Atmosphere` (atmosphere.dfy): the observation record as a value (`Observation`) and as the
  mutable object the source updates in place (`AtmosphericInformation`). It also holds the update
  method `UpdateAtmosphericInformation`, proved against `Admitted`.
- `Registry` (registry.dfy): airport entries, the first-match lookup, the filter and `removeAll`
  steps of deletion, and the specification `Retain` of what deletion leaves, with lemmas about them.
- `Collector` (collector.dfy): the class `Endpoint`, which holds the two shared lists and has the
  endpoint's operations as methods with `modifies` clauses, plus two client scenarios.

The clock is a parameter: `now` stands for `System.currentTimeMillis()`. Numbers are `real`.

## Behaviour of the code as written

The model follows the code. Where the code differs from the documented design, the model
keeps the code's behaviour and proves it:

- The humidity tag is the enum constant's name, spelled `HUMIDTY` (line 173). A tag `HUMIDITY`
  is rejected (`TagSpelling`).
- Case-insensitive matching is Java's, including its non-ASCII case mappings. So `wınd`
  (dotless i) names WIND.
- A rejected sample throws `IllegalStateException`, not `WeatherException` (line 206).
- `addAirport` calls `setLatitude` twice. The stored latitude is the longitude argument, and the
  longitude keeps its initial value (`LatitudeIgnored`, `Endpoint.AddAirport`).
- `addAirport` does not reject duplicate codes. After a duplicate is added, lookups still find the
  first entry (`IndexAfterAppend`), and the set of codes does not grow (`CodesAppend`).
- Neither `addAirport` nor `deleteAirportData` touches the observation list, and `init` empties it.
  So after start-up every submission fails, because no record exists (`SubmitAfterStartup`),
  and registering an airport and then submitting for it fails too (`RegisterThenSubmit`).
  Positions in the two lists are not kept in step.
- The REST `addAirport` guard `length != 3 || length != 4` holds for every string. So that
  endpoint always answers NOT_ACCEPTABLE and never reaches the registry
  (`IataLengthAlwaysRejected`, `Endpoint.RestAddAirport`).

## Model

| member | source | states |
|---|---|---|
| `Measurement.DataPointType.Name` | src/main/java/com/crossover/trial/weather/RestWeatherCollectorEndpoint.java:158-197 | each constant's name is a non-empty string of upper-case ASCII letters, so it can be matched ignoring case |
| `Measurement.CharEqualsIgnoreCase` | src/main/java/com/crossover/trial/weather/RestWeatherCollectorEndpoint.java:158-197 | Java's char comparison against an upper-case ASCII letter: distinct upper-case letters never match, a lower-case letter matches only its upper-case form, and a non-ASCII char can match only I, K or S |
| `Measurement.EqualsIgnoreCase` | src/main/java/com/crossover/trial/weather/RestWeatherCollectorEndpoint.java:158-197 | the name itself always matches, and a match has the name's length |
| `Measurement.InRange` | src/main/java/com/crossover/trial/weather/RestWeatherCollectorEndpoint.java:158-198 | every admitted mean is at least -50; below 800 except for wind; negative only for temperature |
| `Measurement.MatchedType` | src/main/java/com/crossover/trial/weather/RestWeatherCollectorEndpoint.java:158-197 | the result is `Some(t)` exactly when the tag equals `t`'s name ignoring case; no tag names two types |
| `Measurement.Admitted` | src/main/java/com/crossover/trial/weather/RestWeatherCollectorEndpoint.java:158-206 | a sample is admitted iff its tag names some type and its mean lies in that type's range; the admitted slot is that type |
| `Measurement.TagSpelling` | src/main/java/com/crossover/trial/weather/RestWeatherCollectorEndpoint.java:173 | lower-case and mixed-case tags are accepted; `HUMIDITY` names nothing; the dotless i matches `I` as in Java |
| `Measurement.RangeScenarios` | src/main/java/com/crossover/trial/weather/RestWeatherCollectorEndpoint.java:165-187 | a temperature mean of 150 is rejected; pressure 700 is accepted and 900 rejected |
| `Atmosphere.Observation.With` | src/main/java/com/crossover/trial/weather/RestWeatherCollectorEndpoint.java:159-200 | replacing a slot sets that slot to the sample and keeps every other slot and the timestamp |
| `Atmosphere.Observation.Stamped` | src/main/java/com/crossover/trial/weather/RestWeatherCollectorEndpoint.java:160-201 | stamping sets the shared timestamp and keeps every slot |
| `Atmosphere.AcceptTouchesOneSlot` | src/main/java/com/crossover/trial/weather/RestWeatherCollectorEndpoint.java:158-202 | on acceptance the slot the tag names holds the sample and every slot of another type is unchanged |
| `Atmosphere.UpdateAtmosphericInformation` | src/main/java/com/crossover/trial/weather/RestWeatherCollectorEndpoint.java:154-207 | returns normally iff the sample is admitted, and then replaces exactly that slot and stamps `now`; otherwise throws IllegalState and leaves the record unchanged |
| `Registry.Codes` | src/main/java/com/crossover/trial/weather/RestWeatherCollectorEndpoint.java:68-74 | every entry's code is in the set, and the set is empty exactly when the list is |
| `Registry.IndexOfCode` | src/main/java/com/crossover/trial/weather/RestWeatherCollectorEndpoint.java:138 | the result is the first position holding the code, and None exactly when the code is not in the list |
| `Registry.Matching` | src/main/java/com/crossover/trial/weather/RestWeatherCollectorEndpoint.java:237-238 | the filtered list holds exactly the entries with the given code |
| `Registry.RemoveAll` | src/main/java/com/crossover/trial/weather/RestWeatherCollectorEndpoint.java:241 | removeAll keeps exactly the entries not equal to any removed element |
| `Registry.Retain` | src/main/java/com/crossover/trial/weather/RestWeatherCollectorEndpoint.java:236-244 | what deletion leaves holds exactly the entries whose code differs |
| `Registry.RemoveAllOfCode` | src/main/java/com/crossover/trial/weather/RestWeatherCollectorEndpoint.java:237-241 | removing any collection that contains exactly the entries with a code leaves `Retain` of that code |
| `Registry.RemoveMatchingIsRetain` | src/main/java/com/crossover/trial/weather/RestWeatherCollectorEndpoint.java:237-242 | filter-then-removeAll equals `Retain` |
| `Registry.RetainAbsent` | src/main/java/com/crossover/trial/weather/RestWeatherCollectorEndpoint.java:239-243 | deleting a code that is not present leaves the list unchanged |
| `Registry.RetainAppend` | src/main/java/com/crossover/trial/weather/RestWeatherCollectorEndpoint.java:236-244 | deletion distributes over concatenation, so the kept entries stay in their original order |
| `Registry.RetainIdempotent` | src/main/java/com/crossover/trial/weather/RestWeatherCollectorEndpoint.java:236-244 | deleting a code twice is the same as deleting it once |
| `Registry.RetainLength` | src/main/java/com/crossover/trial/weather/RestWeatherCollectorEndpoint.java:236-244 | the kept entries and the matching entries add up to the whole list |
| `Registry.RetainCodes` | src/main/java/com/crossover/trial/weather/RestWeatherCollectorEndpoint.java:236-244 | after deletion the code is gone and every other code remains |
| `Registry.LookupAfterRetain` | src/main/java/com/crossover/trial/weather/RestWeatherCollectorEndpoint.java:236-244 | looking up a deleted code fails |
| `Registry.CodesAppend` | src/main/java/com/crossover/trial/weather/RestWeatherCollectorEndpoint.java:221-229 | appending an entry adds its code to the set of codes and nothing else; a duplicate code does not grow it |
| `Registry.CodesBound` | src/main/java/com/crossover/trial/weather/RestWeatherCollectorEndpoint.java:68-74 | duplicates collapse: there are never more codes than entries |
| `Registry.IndexAfterAppend` | src/main/java/com/crossover/trial/weather/RestWeatherCollectorEndpoint.java:221-229 | after an append, a new code resolves to the new entry, an existing code still resolves to its first entry, other codes are unaffected |
| `Collector.LatitudeIgnored` | src/main/java/com/crossover/trial/weather/RestWeatherCollectorEndpoint.java:222-225 | the latitude argument has no effect on the entry built: the second setLatitude overwrites it |
| `Collector.SeedEntries` | src/main/java/com/crossover/trial/weather/RestWeatherCollectorEndpoint.java:258-261 | the replayed list has one entry per triple, and entry i carries triple i's code |
| `Collector.SeedEntriesAt` | src/main/java/com/crossover/trial/weather/RestWeatherCollectorEndpoint.java:249-261 | replaying seeds gives one entry per triple, in order, with that triple's code and its longitude as latitude |
| `Collector.IataLengthRejected` | src/main/java/com/crossover/trial/weather/RestWeatherCollectorEndpoint.java:100 | the check rejects even codes of length 3 and 4 |
| `Collector.IataLengthAlwaysRejected` | src/main/java/com/crossover/trial/weather/RestWeatherCollectorEndpoint.java:100 | the iata length check is true for every string |
| `Collector.Endpoint.constructor` | src/main/java/com/crossover/trial/weather/RestWeatherCollectorEndpoint.java:38-40 | after the static initializer, the airport list is the seeded list and the observation list is empty |
| `Collector.Endpoint.Target` | src/main/java/com/crossover/trial/weather/RestWeatherCollectorEndpoint.java:138-139 | an update for a code reaches the record at the code's first position when the observation list has one there, and no record when the code is absent |
| `Collector.Endpoint.GetAirports` | src/main/java/com/crossover/trial/weather/RestWeatherCollectorEndpoint.java:68-74 | returns exactly the set of codes in the airport list |
| `Collector.Endpoint.AddDataPoint` | src/main/java/com/crossover/trial/weather/RestWeatherCollectorEndpoint.java:137-141 | fails with AirportNotFound or IndexOutOfBounds when the code has no record; otherwise behaves as `UpdateAtmosphericInformation` on that record; no other record (any index, when records are distinct) and neither list changes |
| `Collector.Endpoint.AddAirport` | src/main/java/com/crossover/trial/weather/RestWeatherCollectorEndpoint.java:221-229 | appends exactly the returned entry, whose latitude is the longitude argument; earlier entries and the observation list are unchanged |
| `Collector.Endpoint.DeleteAirportData` | src/main/java/com/crossover/trial/weather/RestWeatherCollectorEndpoint.java:236-244 | the new airport list is `Retain` of the old one (see the Retain lemmas); the observation list is unchanged |
| `Collector.Endpoint.Init` | src/main/java/com/crossover/trial/weather/RestWeatherCollectorEndpoint.java:249-261 | the airport list becomes the seeded list and the observation list is empty |
| `Collector.Endpoint.RestAddAirport` | src/main/java/com/crossover/trial/weather/RestWeatherCollectorEndpoint.java:89-110 | always answers NOT_ACCEPTABLE and changes no state |
| `Collector.SubmitAfterStartup` | src/main/java/com/crossover/trial/weather/RestWeatherCollectorEndpoint.java:137-141 | after start-up, a submission for any code fails: IndexOutOfBounds exactly when the code is seeded, AirportNotFound otherwise |
| `Collector.RegisterThenSubmit` | src/main/java/com/crossover/trial/weather/RestWeatherCollectorEndpoint.java:137-141 | registering BOS and then submitting a valid wind sample for it fails with IndexOutOfBounds, since addAirport adds no record |
| `Collector.BostonScenario` | src/main/java/com/crossover/trial/weather/RestWeatherCollectorEndpoint.java:137-141 | once a record for BOS is placed in the observation list directly (standing for the query side, which is not part of this model), a valid wind sample is applied, a temperature mean of 150 is rejected, and an unknown code and a deleted code are not found |

## Left out

- HTTP routing, annotations, `Response` building and `ping` are left out; they are transport only.
  `getAirport` (lines 80-83) and REST `deleteAirport` (115-118) only forward to a lookup or to
  `deleteAirportData`.
- `updateWeather` (52-62) is left out. It needs Gson decoding, and it only catches and logs
  `WeatherException`, while the rejection path throws `IllegalStateException`.
- `Double.valueOf` (97-98) is not modelled. `RestAddAirport` takes its result as an `Option`.
- The resource loading, line reading and `split`/`Double.valueOf` in `init` (253-265) are not
  modelled. `Init` takes the already-parsed triples. Parse errors and the `IOException` path are
  not modelled.
- `requestFrequency.clear()` (252) is left out: that map belongs to the query endpoint, which is
  not part of this model.
- IEEE double semantics, including NaN, are not modelled: numbers are `real`. A NaN mean fails
  every comparison and would be rejected.
- The clock is the parameter `now`, not a call to `System.currentTimeMillis()`.
- `DataPoint`, `AtmosphericInformation`, `AirportData`, `DataPointType`, `getAirportDataIdx` and
  `findAirportData` are not part of this model. The model makes these assumptions about them:
  - a new `AirportData` has coordinates 0.0, and `removeAll` uses value equality;
  - a new `AtmosphericInformation` has every slot unset and timestamp 0;
  - the lookup is the first position whose code matches.
  The exact exception raised when the lookup fails comes from the query side; here it is `AirportNotFound`.
- Tags are sequences of Unicode scalar values, whereas Java strings are UTF-16 units. A tag
  containing a supplementary character matches no name in either form.
- `AirportData` entries are values, not objects. So the model does not capture that the entry
  `addAirport` returns is the same object as the list element (lines 226-228). Nothing in this file
  changes an entry after it is added, so no behaviour depends on that identity.
- `WeatherClient.java` is left out: it is a network smoke-test client.
- Concurrency and locking are left out.
