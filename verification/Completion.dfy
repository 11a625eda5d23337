/** Completing an observation: the manager inserts a default row for every scheduled parameter, sensor and
    level that has not been reported. Times are seconds; tables are sets and maps by their unique keys. */
module Completion {
  import opened Requests

  datatype Observation = Observation(stationid: int, typeid: int, obstime: int, tbtime: int)

  /** A row of obs_pgm; `hours` are the hours whose klHH column is set. */
  datatype Pgm = Pgm(stationid: int, typeid: int, paramid: int, level: int, nrSensor: int,
                     fromtime: int, totime: Option<int>, hours: set<int>)

  /** A row of the view default_missing_values, keyed by its paramid. */
  datatype Default = Default(value: real, controlinfo: string)

  /** The unique key of obsdata. The sensor is stored as one character. */
  datatype DataKey = DataKey(obsid: int, paramid: int, level: int, sensor: char)

  datatype DataRow = DataRow(original: real, corrected: real, controlinfo: string, useinfo: string, cfailed: string)

  /** What the programme asks for. */
  datatype Element = Element(paramid: int, sensor: int, level: int)

  type ObsData = map<DataKey, DataRow>

  const MAX_NUMBER := 10

  function Hour(time: int): int { (time / 3600) % 24 }

  predicate IsWholeHour(time: int) { time % 3600 == 0 }

  predicate Active(p: Pgm, o: Observation) {
    && p.stationid == o.stationid && p.typeid == o.typeid
    && p.fromtime < o.obstime && (p.totime.Some? ==> p.totime.value > o.obstime)
    && Hour(o.obstime) in p.hours
  }

  /** The recursive number series runs from 0 to 10, both included. */
  function Scheduled(pgm: set<Pgm>, o: Observation): set<Element> {
    set p, n | p in pgm && 0 <= n <= MAX_NUMBER && Active(p, o) && n < p.nrSensor :: Element(p.paramid, n, p.level)
  }

  predicate Digit(c: char) { '0' <= c <= '9' }

  /** sensor::char keeps the first character only. */
  function SensorChar(sensor: int): char
    requires 0 <= sensor <= MAX_NUMBER
  {
    if sensor < 10 then '0' + sensor as char else '1'
  }

  function SensorNumber(c: char): int
    requires Digit(c)
  {
    c as int - '0' as int
  }

  ghost predicate DigitsOnly(data: ObsData) { forall k | k in data :: Digit(k.sensor) }

  function Stored(data: ObsData, obsid: int): set<Element>
    requires DigitsOnly(data)
  {
    set k | k in data && k.obsid == obsid :: Element(k.paramid, SensorNumber(k.sensor), k.level)
  }

  /** The rows the insert statement selects. */
  function Selected(pgm: set<Pgm>, defaults: map<int, Default>, data: ObsData, obsid: int, o: Observation): set<Element>
    requires DigitsOnly(data)
  {
    set e | e in Scheduled(pgm, o) - Stored(data, obsid) && e.paramid in defaults
  }

  function KeyOf(obsid: int, e: Element): DataKey
    requires 0 <= e.sensor <= MAX_NUMBER
  {
    DataKey(obsid, e.paramid, e.level, SensorChar(e.sensor))
  }

  function DefaultRow(d: Default): DataRow {
    DataRow(d.value, d.value, d.controlinfo, "0000000000000000", "")
  }

  /** The insert meets the unique constraint. */
  predicate Insertable(data: ObsData, obsid: int, rows: set<Element>)
    requires forall e | e in rows :: 0 <= e.sensor <= MAX_NUMBER
  {
    && (forall e | e in rows :: KeyOf(obsid, e) !in data)
    && (forall e, f | e in rows && f in rows && KeyOf(obsid, e) == KeyOf(obsid, f) :: e == f)
  }

  predicate CanComplete(pgm: set<Pgm>, defaults: map<int, Default>, data: ObsData, obsid: int, o: Observation)
    requires DigitsOnly(data)
  {
    Insertable(data, obsid, Selected(pgm, defaults, data, obsid, o))
  }

  /** obsdata after the insert statement has succeeded. */
  function Completed(pgm: set<Pgm>, defaults: map<int, Default>, data: ObsData, obsid: int, o: Observation): ObsData
    requires DigitsOnly(data)
  {
    data + map e | e in Selected(pgm, defaults, data, obsid, o) :: KeyOf(obsid, e) := DefaultRow(defaults[e.paramid])
  }

  // ------------------------------------------------------------------- when the insert succeeds

  /** A scheduled parameter with a default and more than ten sensors. */
  predicate Poisoned(pgm: set<Pgm>, defaults: map<int, Default>, o: Observation) {
    exists p | p in pgm :: Active(p, o) && p.paramid in defaults && p.nrSensor > 10
  }

  /** Sensor 10 is cut down to sensor 1, which is scheduled too: the statement violates the unique key
      whatever has been stored. Otherwise it never does. */
  lemma {:induction false} CompletesUnlessPoisoned(pgm: set<Pgm>, defaults: map<int, Default>, data: ObsData,
                                                   obsid: int, o: Observation)
    requires DigitsOnly(data)
    ensures CanComplete(pgm, defaults, data, obsid, o) <==> !Poisoned(pgm, defaults, o)
  {
    if Poisoned(pgm, defaults, o) {
      var p :| p in pgm && Active(p, o) && p.paramid in defaults && p.nrSensor > 10;
      SensorTenCollides(pgm, defaults, data, obsid, o, p);
    } else {
      SmallSensorsFit(pgm, defaults, data, obsid, o);
    }
  }

  lemma {:induction false} SensorTenCollides(pgm: set<Pgm>, defaults: map<int, Default>, data: ObsData, obsid: int,
                                             o: Observation, p: Pgm)
    requires DigitsOnly(data) && p in pgm && Active(p, o) && p.paramid in defaults && p.nrSensor > 10
    ensures !CanComplete(pgm, defaults, data, obsid, o)
  {
    var one, ten := Element(p.paramid, 1, p.level), Element(p.paramid, 10, p.level);
    assert one in Scheduled(pgm, o) && ten in Scheduled(pgm, o);
    assert ten in Selected(pgm, defaults, data, obsid, o);
    assert KeyOf(obsid, one) == KeyOf(obsid, ten);
    if one in Stored(data, obsid) {
      StoredHasKey(data, obsid, one);
    } else {
      assert one in Selected(pgm, defaults, data, obsid, o);
    }
  }

  lemma {:induction false} StoredHasKey(data: ObsData, obsid: int, e: Element)
    requires DigitsOnly(data) && 0 <= e.sensor < 10
    ensures e in Stored(data, obsid) <==> KeyOf(obsid, e) in data
  {
    if e in Stored(data, obsid) {
      var k :| k in data && k.obsid == obsid && e == Element(k.paramid, SensorNumber(k.sensor), k.level);
      assert k == KeyOf(obsid, e);
    }
    if KeyOf(obsid, e) in data {
      assert SensorNumber(KeyOf(obsid, e).sensor) == e.sensor;
    }
  }

  lemma {:induction false} SmallSensorsFit(pgm: set<Pgm>, defaults: map<int, Default>, data: ObsData, obsid: int,
                                           o: Observation)
    requires DigitsOnly(data) && !Poisoned(pgm, defaults, o)
    ensures CanComplete(pgm, defaults, data, obsid, o)
    ensures forall e | e in Scheduled(pgm, o) && e.paramid in defaults :: e.sensor < 10
  {
    forall e | e in Scheduled(pgm, o) && e.paramid in defaults ensures e.sensor < 10 {
      var p :| p in pgm && Active(p, o) && e.sensor < p.nrSensor && p.paramid == e.paramid;
    }
    forall e | e in Selected(pgm, defaults, data, obsid, o) ensures KeyOf(obsid, e) !in data {
      StoredHasKey(data, obsid, e);
    }
  }

  // --------------------------------------------------------------------- what the insert does

  /** Every scheduled element with a default is stored. */
  ghost predicate Complete(pgm: set<Pgm>, defaults: map<int, Default>, data: ObsData, obsid: int, o: Observation) {
    forall e | e in Scheduled(pgm, o) && e.paramid in defaults :: KeyOf(obsid, e) in data
  }

  /** Completing stores every scheduled element with a default, keeps every row there was, and adds
      nothing but default rows of this observation for scheduled elements. */
  lemma {:induction false} CompletionMeans(pgm: set<Pgm>, defaults: map<int, Default>, data: ObsData, obsid: int,
                                           o: Observation)
    requires DigitsOnly(data) && !Poisoned(pgm, defaults, o)
    ensures var data' := Completed(pgm, defaults, data, obsid, o);
            && DigitsOnly(data') && Complete(pgm, defaults, data', obsid, o)
            && (forall k | k in data :: k in data' && data'[k] == data[k])
            && (forall k | k in data' && k !in data ::
                  && k.obsid == obsid
                  && Element(k.paramid, SensorNumber(k.sensor), k.level) in Scheduled(pgm, o)
                  && k.paramid in defaults && data'[k] == DefaultRow(defaults[k.paramid]))
  {
    SmallSensorsFit(pgm, defaults, data, obsid, o);
    var data', rows := Completed(pgm, defaults, data, obsid, o), Selected(pgm, defaults, data, obsid, o);
    forall e | e in Scheduled(pgm, o) && e.paramid in defaults ensures KeyOf(obsid, e) in data' {
      StoredHasKey(data, obsid, e);
      assert e !in Stored(data, obsid) ==> e in rows;
    }
    forall k | k in data' && k !in data
      ensures k.obsid == obsid && k.paramid in defaults && Digit(k.sensor)
      ensures Element(k.paramid, SensorNumber(k.sensor), k.level) in Scheduled(pgm, o)
      ensures data'[k] == DefaultRow(defaults[k.paramid])
    {
      var e :| e in rows && k == KeyOf(obsid, e);
      assert e == Element(k.paramid, SensorNumber(k.sensor), k.level);
    }
  }

  /** Completing a complete observation inserts nothing; and only of a complete one is that true. */
  lemma {:induction false} NothingLeftIffComplete(pgm: set<Pgm>, defaults: map<int, Default>, data: ObsData, obsid: int,
                                                  o: Observation)
    requires DigitsOnly(data) && !Poisoned(pgm, defaults, o)
    ensures Completed(pgm, defaults, data, obsid, o) == data <==> Complete(pgm, defaults, data, obsid, o)
  {
    SmallSensorsFit(pgm, defaults, data, obsid, o);
    CompletionMeans(pgm, defaults, data, obsid, o);
    if Complete(pgm, defaults, data, obsid, o) {
      forall e | e in Selected(pgm, defaults, data, obsid, o) ensures false {
        StoredHasKey(data, obsid, e);
      }
      assert Selected(pgm, defaults, data, obsid, o) == {};
    }
  }

  /** A second run right after the first inserts nothing. */
  lemma {:induction false} CompletionIdempotent(pgm: set<Pgm>, defaults: map<int, Default>, data: ObsData, obsid: int,
                                                o: Observation)
    requires DigitsOnly(data) && !Poisoned(pgm, defaults, o)
    ensures var data' := Completed(pgm, defaults, data, obsid, o);
            DigitsOnly(data') && Completed(pgm, defaults, data', obsid, o) == data'
  {
    CompletionMeans(pgm, defaults, data, obsid, o);
    NothingLeftIffComplete(pgm, defaults, Completed(pgm, defaults, data, obsid, o), obsid, o);
  }
}
