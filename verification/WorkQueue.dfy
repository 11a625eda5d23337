/** The manager's work queue: starting observations, completing them, and moving finished rows to the
    statistics. */
module WorkQueue {
  import opened Requests
  import opened Completion
  import Sets

  /** A row of workque, keyed by its observation. NULL columns are None. */
  datatype Work = Work(priority: int, processStart: Option<int>, qaStart: Option<int>, qaStop: Option<int>,
                       serviceStart: Option<int>, serviceStop: Option<int>, qaId: Option<int>)

  datatype Stat = Stat(obsid: int, observation: Observation, work: Work)

  /** Tells the rows of workstatistik apart, which has no unique column: the transaction that inserted the
      row, and the observation. */
  datatype RowId = RowId(transaction: nat, obsid: int)

  datatype Tables = Tables(observations: map<int, Observation>, obsdata: ObsData, workque: map<int, Work>,
                           workstatistik: map<RowId, Stat>, transactions: nat)

  const PRIORITY := 10
  const MOVE_AFTER := 15 * 60

  /** What the schema's keys and references guarantee; and a row that has not been started has not been
      checked. */
  ghost predicate Consistent(t: Tables) {
    && t.workque.Keys <= t.observations.Keys
    && (forall id | id in t.workque && t.workque[id].processStart.None? :: t.workque[id].qaStop.None?)
    && DigitsOnly(t.obsdata) && (forall k | k in t.obsdata :: k.obsid in t.observations)
    && (forall r | r in t.workstatistik :: r.transaction < t.transactions)
  }

  // ------------------------------------------------------------------------ completing a row

  function Started(w: Option<Work>, now: int): Work {
    match w
    case None => Work(PRIORITY, Some(now), None, None, None, None, None)
    case Some(w) => w.(processStart := Some(now), qaStart := None, qaStop := None, serviceStart := None,
        serviceStop := None)
  }

  function Row(t: Tables, obsid: int): Option<Work> {
    if obsid in t.workque then Some(t.workque[obsid]) else None
  }

  function Unstarted(t: Tables): set<int> {
    set id | id in t.workque && t.workque[id].processStart.None?
  }

  /** Completing this observation fails for good. */
  predicate Stuck(pgm: set<Pgm>, defaults: map<int, Default>, o: Observation) {
    IsWholeHour(o.obstime) && Poisoned(pgm, defaults, o)
  }

  ghost function StuckIds(pgm: set<Pgm>, defaults: map<int, Default>, t: Tables): set<int> {
    set id | id in t.observations && Stuck(pgm, defaults, t.observations[id])
  }

  /** obsdata once the observation is complete, which is looked into at whole hours only. */
  function DataAfter(pgm: set<Pgm>, defaults: map<int, Default>, t: Tables, obsid: int): ObsData
    requires DigitsOnly(t.obsdata) && obsid in t.observations
  {
    var o := t.observations[obsid];
    if IsWholeHour(o.obstime) then Completed(pgm, defaults, t.obsdata, obsid, o) else t.obsdata
  }

  /** From t to t' the observations `ids` have been started and completed: each has one row with process_start
      set and the later stages cleared, and its scheduled elements stored; everything else is as it was. */
  ghost predicate Processed(pgm: set<Pgm>, defaults: map<int, Default>, t: Tables, t': Tables, ids: set<int>) {
    && t'.observations == t.observations && t'.workstatistik == t.workstatistik && t'.transactions == t.transactions
    && ids <= t.observations.Keys
    && RowsStarted(t, t', ids)
    && DataCompleted(pgm, defaults, t, t', ids)
  }

  ghost predicate RowsStarted(t: Tables, t': Tables, ids: set<int>) {
    && t'.workque.Keys == t.workque.Keys + ids
    && (forall id | id in t.workque && id !in ids :: t'.workque[id] == t.workque[id])
    && (forall id | id in ids :: StartedRow(t, t', id))
  }

  ghost predicate StartedRow(t: Tables, t': Tables, id: int) {
    id in t'.workque && exists now :: t'.workque[id] == Started(Row(t, id), now)
  }

  ghost predicate DataCompleted(pgm: set<Pgm>, defaults: map<int, Default>, t: Tables, t': Tables, ids: set<int>)
    requires ids <= t.observations.Keys
  {
    && DigitsOnly(t'.obsdata)
    && (forall id | id in ids && IsWholeHour(t.observations[id].obstime) ::
          Complete(pgm, defaults, t'.obsdata, id, t.observations[id]))
    && RowsKept(t.obsdata, t'.obsdata)
    && DefaultsAdded(pgm, defaults, t, t', ids)
  }

  ghost predicate RowsKept(data: ObsData, data': ObsData) {
    forall k | k in data :: k in data' && data'[k] == data[k]
  }

  ghost predicate DefaultsAdded(pgm: set<Pgm>, defaults: map<int, Default>, t: Tables, t': Tables, ids: set<int>) {
    forall k | k in t'.obsdata && k !in t.obsdata :: k.obsid in ids && DefaultFor(pgm, defaults, t, k, t'.obsdata[k])
  }

  /** A row that completing inserts. */
  ghost predicate DefaultFor(pgm: set<Pgm>, defaults: map<int, Default>, t: Tables, k: DataKey, row: DataRow) {
    && k.obsid in t.observations && IsWholeHour(t.observations[k.obsid].obstime)
    && Digit(k.sensor) && Element(k.paramid, SensorNumber(k.sensor), k.level) in Scheduled(pgm, t.observations[k.obsid])
    && k.paramid in defaults && row == DefaultRow(defaults[k.paramid])
  }

  lemma {:induction false} ProcessedNone(pgm: set<Pgm>, defaults: map<int, Default>, t: Tables)
    requires Consistent(t)
    ensures Processed(pgm, defaults, t, t, {})
  {
  }

  lemma {:induction false} ProcessedMore(pgm: set<Pgm>, defaults: map<int, Default>, t: Tables, t1: Tables, t2: Tables,
                                         ids: set<int>, id: int)
    requires Processed(pgm, defaults, t, t1, ids) && Processed(pgm, defaults, t1, t2, {id}) && id !in ids
    ensures Processed(pgm, defaults, t, t2, ids + {id})
  {
    hide RowsStarted, DataCompleted;
    RowsStartedMore(t, t1, t2, ids, id);
    DataCompletedMore(pgm, defaults, t, t1, t2, ids, id);
  }

  lemma {:induction false} DataCompletedMore(pgm: set<Pgm>, defaults: map<int, Default>, t: Tables, t1: Tables,
                                             t2: Tables, ids: set<int>, id: int)
    requires ids <= t.observations.Keys && id in t.observations && t1.observations == t.observations
    requires DataCompleted(pgm, defaults, t, t1, ids) && DataCompleted(pgm, defaults, t1, t2, {id})
    ensures DataCompleted(pgm, defaults, t, t2, ids + {id})
  {
    hide Scheduled;
    forall i | i in ids && IsWholeHour(t.observations[i].obstime)
      ensures Complete(pgm, defaults, t2.obsdata, i, t.observations[i])
    {
      StillComplete(pgm, defaults, t1.obsdata, t2.obsdata, i, t.observations[i]);
    }
    hide Complete;
    forall k | k in t2.obsdata && k !in t.obsdata
      ensures k.obsid in ids + {id} && DefaultFor(pgm, defaults, t, k, t2.obsdata[k])
    {
      if k in t1.obsdata {
        assert DefaultFor(pgm, defaults, t, k, t1.obsdata[k]);
      } else {
        assert DefaultFor(pgm, defaults, t1, k, t2.obsdata[k]);
      }
    }
  }

  lemma {:induction false} StillComplete(pgm: set<Pgm>, defaults: map<int, Default>, data: ObsData, data': ObsData,
                                         id: int, o: Observation)
    requires Complete(pgm, defaults, data, id, o) && RowsKept(data, data')
    ensures Complete(pgm, defaults, data', id, o)
  {
    hide Scheduled;
  }

  lemma {:induction false} RowsStartedMore(t: Tables, t1: Tables, t2: Tables, ids: set<int>, id: int)
    requires RowsStarted(t, t1, ids) && RowsStarted(t1, t2, {id}) && id !in ids
    ensures RowsStarted(t, t2, ids + {id})
  {
    assert Row(t1, id) == Row(t, id);
    forall i | i in ids + {id} ensures StartedRow(t, t2, i) {
      if i == id {
        assert StartedRow(t1, t2, id);
      } else {
        assert StartedRow(t, t1, i) && t2.workque[i] == t1.workque[i];
      }
    }
  }

  lemma {:induction false} ProcessedUnstarted(pgm: set<Pgm>, defaults: map<int, Default>, t: Tables, t': Tables,
                                              id: int)
    requires Processed(pgm, defaults, t, t', {id}) && id in Unstarted(t)
    ensures Unstarted(t') == Unstarted(t) - {id}
  {
    assert StartedRow(t, t', id);
    forall i ensures i in Unstarted(t') <==> i in Unstarted(t) - {id} {
    }
  }

  // ---------------------------------------------------------------------- rows that arrive

  /** Somebody else stores data. What is there already of the observation goes, with its row in the queue, and it
      is stored under a new id. Data that human quality control has been through need not be queued. */
  datatype Arrival = Arrival(former: Option<int>, id: int, observation: Observation, data: ObsData, priority: int,
                             qaId: Option<int>, addToQueue: bool, onlyHqc: bool)

  /** The observation to be replaced has a row that still waits for its checks. */
  predicate Unprocessed(t: Tables, former: Option<int>) {
    former.Some? && former.value in t.workque && t.workque[former.value].qaStop.None?
  }

  predicate Queued(t: Tables, a: Arrival) { a.addToQueue && (a.onlyHqc ==> Unprocessed(t, a.former)) }

  /** Statistics of the observation. */
  function StatsOf(t: Tables, obsid: int): set<RowId> {
    set r | r in t.workstatistik && t.workstatistik[r].obsid == obsid
  }

  /** The row in the statistics that a finished row of the queue leaves behind. */
  function Kept(t: Tables, stale: int): map<RowId, Stat> {
    if stale in t.observations && stale in t.workque && t.workque[stale].qaStop.Some? && StatsOf(t, stale) == {}
    then map[RowId(t.transactions, stale) := Stat(stale, t.observations[stale], t.workque[stale])]
    else map[]
  }

  function DataWithout(data: ObsData, stale: int): ObsData { map k | k in data && k.obsid != stale :: data[k] }

  /** The delete, with its cascades. */
  function Replaced(t: Tables, stale: int): Tables {
    t.(observations := t.observations - {stale}, workque := t.workque - {stale},
       obsdata := DataWithout(t.obsdata, stale),
       workstatistik := t.workstatistik + Kept(t, stale), transactions := t.transactions + 1)
  }

  function Inserted(t: Tables, a: Arrival, queued: bool): Tables {
    t.(observations := t.observations[a.id := a.observation], obsdata := t.obsdata + a.data,
       workque := if queued then t.workque[a.id := Work(a.priority, None, None, None, None, None, a.qaId)]
                  else t.workque)
  }

  function Arrived(t: Tables, a: Option<Arrival>): Tables {
    match a
    case None => t
    case Some(a) => Inserted(if a.former.Some? then Replaced(t, a.former.value) else t, a, Queued(t, a))
  }

  /** The id is new, and what is replaced is what there is of the same station, type and time. */
  ghost predicate Fresh(t: Tables, used: set<int>, a: Option<Arrival>) {
    a.Some? ==>
      && a.value.id !in t.observations && a.value.id !in used
      && (forall k | k in a.value.data :: k.obsid == a.value.id && Digit(k.sensor))
      && (forall id | id in t.observations ::
            SameKey(t.observations[id], a.value.observation) <==> a.value.former == Some(id))
  }

  predicate SameKey(o: Observation, p: Observation) {
    o.stationid == p.stationid && o.typeid == p.typeid && o.obstime == p.obstime
  }

  /** The tables with the first n arrivals, and nothing started or completed. */
  ghost function World(t: Tables, arrivals: seq<Option<Arrival>>, n: nat): Tables
    requires n <= |arrivals|
  {
    if n == 0 then t else Arrived(World(t, arrivals, n - 1), arrivals[n - 1])
  }

  /** The ids there have been. */
  ghost function Used(t: Tables, arrivals: seq<Option<Arrival>>, n: nat): set<int>
    requires n <= |arrivals|
  {
    if n == 0 then t.observations.Keys
    else Used(t, arrivals, n - 1) + if arrivals[n - 1].Some? then {arrivals[n - 1].value.id} else {}
  }

  ghost predicate AllFresh(t: Tables, arrivals: seq<Option<Arrival>>) {
    forall n: nat | n < |arrivals| :: Fresh(World(t, arrivals, n), Used(t, arrivals, n), arrivals[n])
  }

  /** What the arrival leaves of a set of ids. */
  function Left(ids: set<int>, a: Option<Arrival>): set<int> {
    if a.Some? && a.value.former.Some? then ids - {a.value.former.value} else ids
  }

  /** An arrival does not disturb what has been processed. */
  lemma {:induction false} ArrivalKeepsProcessed(pgm: set<Pgm>, defaults: map<int, Default>, t: Tables, t': Tables,
                                                 ids: set<int>, used: set<int>, a: Option<Arrival>)
    requires Consistent(t) && Consistent(t') && Processed(pgm, defaults, t, t', ids) && Fresh(t, used, a)
    requires ids <= Unstarted(t)
    ensures Processed(pgm, defaults, Arrived(t, a), Arrived(t', a), Left(ids, a))
    ensures Consistent(Arrived(t', a)) && Consistent(Arrived(t, a))
    ensures a.Some? ==> Queued(t, a.value) == Queued(t', a.value)
  {
    if a.Some? {
      var s, s' := t, t';
      SameQueued(t, t', ids, a.value);
      if a.value.former.Some? {
        var stale := a.value.former.value;
        ReplacingKeepsProcessed(pgm, defaults, t, t', ids, stale);
        s, s' := Replaced(t, stale), Replaced(t', stale);
      }
      hide RowsStarted, DataCompleted, Consistent, Arrived, Unstarted;
      InsertionKeepsProcessed(pgm, defaults, s, s', Left(ids, a), a.value, Queued(t, a.value));
      ArrivedMeans(t, a.value);
      ArrivedMeans(t', a.value);
    }
  }

  lemma {:induction false} ArrivedMeans(t: Tables, a: Arrival)
    ensures var s := if a.former.Some? then Replaced(t, a.former.value) else t;
            Arrived(t, Some(a)) == Inserted(s, a, Queued(t, a))
  {
  }

  lemma {:induction false} SameQueued(t: Tables, t': Tables, ids: set<int>, a: Arrival)
    requires Consistent(t) && RowsStarted(t, t', ids) && ids <= Unstarted(t)
    ensures Queued(t, a) == Queued(t', a)
  {
    if a.former.Some? {
      var id := a.former.value;
      if id in ids {
        assert StartedRow(t, t', id) && id in t.workque;
      } else {
        assert id in t.workque <==> id in t'.workque;
        assert id in t.workque ==> t'.workque[id] == t.workque[id];
      }
    }
  }

  lemma {:induction false} ReplacingKeepsProcessed(pgm: set<Pgm>, defaults: map<int, Default>, t: Tables, t': Tables,
                                                   ids: set<int>, stale: int)
    requires Consistent(t) && Consistent(t') && Processed(pgm, defaults, t, t', ids) && ids <= Unstarted(t)
    ensures Processed(pgm, defaults, Replaced(t, stale), Replaced(t', stale), ids - {stale})
    ensures Consistent(Replaced(t, stale)) && Consistent(Replaced(t', stale))
  {
    ReplacedConsistent(t, stale);
    ReplacedConsistent(t', stale);
    ReplacingKeepsRows(t, t', ids, stale);
    SameKept(t, t', ids, stale);
    ReplacingKeepsData(pgm, defaults, t, t', ids, stale);
    hide RowsStarted, DataCompleted, Consistent;
  }

  lemma {:induction false} ReplacedConsistent(t: Tables, stale: int)
    requires Consistent(t)
    ensures Consistent(Replaced(t, stale))
  {
  }

  lemma {:induction false} ReplacingKeepsRows(t: Tables, t': Tables, ids: set<int>, stale: int)
    requires Consistent(t) && RowsStarted(t, t', ids) && ids <= Unstarted(t)
    ensures RowsStarted(Replaced(t, stale), Replaced(t', stale), ids - {stale})
  {
    hide Kept, DataWithout;
    var s, s' := Replaced(t, stale), Replaced(t', stale);
    forall id | id in ids - {stale} ensures StartedRow(s, s', id) {
      assert StartedRow(t, t', id) && Row(s, id) == Row(t, id) && s'.workque[id] == t'.workque[id];
    }
  }

  lemma {:induction false} SameKept(t: Tables, t': Tables, ids: set<int>, stale: int)
    requires Consistent(t) && RowsStarted(t, t', ids) && ids <= Unstarted(t)
    requires t'.observations == t.observations && t'.workstatistik == t.workstatistik
    requires t'.transactions == t.transactions
    ensures Kept(t, stale) == Kept(t', stale)
  {
    if stale in ids {
      assert StartedRow(t, t', stale);
    }
    assert StatsOf(t, stale) == StatsOf(t', stale);
  }

  lemma {:induction false} CompleteWithout(pgm: set<Pgm>, defaults: map<int, Default>, data: ObsData, stale: int,
                                           id: int, o: Observation)
    requires Complete(pgm, defaults, data, id, o) && id != stale
    ensures Complete(pgm, defaults, DataWithout(data, stale), id, o)
  {
    hide Scheduled;
  }

  lemma {:induction false} RowsKeptWithout(data: ObsData, data': ObsData, stale: int)
    requires RowsKept(data, data')
    ensures RowsKept(DataWithout(data, stale), DataWithout(data', stale))
  {
  }

  lemma {:induction false} ReplacingKeepsDefaults(pgm: set<Pgm>, defaults: map<int, Default>, t: Tables, t': Tables,
                                                  ids: set<int>, stale: int)
    requires ids <= t.observations.Keys && DefaultsAdded(pgm, defaults, t, t', ids)
    ensures DefaultsAdded(pgm, defaults, Replaced(t, stale), Replaced(t', stale), ids - {stale})
  {
    hide Scheduled, Kept;
    var s, s' := Replaced(t, stale), Replaced(t', stale);
    forall k | k in s'.obsdata && k !in s.obsdata
      ensures k.obsid in ids - {stale} && DefaultFor(pgm, defaults, s, k, s'.obsdata[k])
    {
      assert k in t'.obsdata && k !in t.obsdata && DefaultFor(pgm, defaults, t, k, t'.obsdata[k]);
    }
  }

  lemma {:induction false} ReplacingKeepsData(pgm: set<Pgm>, defaults: map<int, Default>, t: Tables, t': Tables,
                                              ids: set<int>, stale: int)
    requires ids <= t.observations.Keys && DataCompleted(pgm, defaults, t, t', ids)
    ensures DataCompleted(pgm, defaults, Replaced(t, stale), Replaced(t', stale), ids - {stale})
  {
    RowsKeptWithout(t.obsdata, t'.obsdata, stale);
    ReplacingKeepsDefaults(pgm, defaults, t, t', ids, stale);
    hide Kept, Complete, RowsKept, DefaultsAdded;
    var s, s' := Replaced(t, stale), Replaced(t', stale);
    forall id | id in ids - {stale} && IsWholeHour(s.observations[id].obstime)
      ensures Complete(pgm, defaults, s'.obsdata, id, s.observations[id])
    {
      CompleteWithout(pgm, defaults, t'.obsdata, stale, id, t.observations[id]);
    }
  }

  lemma {:induction false} InsertionKeepsProcessed(pgm: set<Pgm>, defaults: map<int, Default>, t: Tables, t': Tables,
                                                   ids: set<int>, a: Arrival, queued: bool)
    requires Consistent(t) && Consistent(t') && Processed(pgm, defaults, t, t', ids) && New(t, a)
    ensures Processed(pgm, defaults, Inserted(t, a, queued), Inserted(t', a, queued), ids)
    ensures Consistent(Inserted(t, a, queued)) && Consistent(Inserted(t', a, queued))
  {
    InsertionKeepsRows(t, t', ids, a, queued);
    InsertionKeepsData(pgm, defaults, t, t', ids, a, queued);
    hide RowsStarted, DataCompleted;
    InsertionConsistent(t, a, queued);
    InsertionConsistent(t', a, queued);
    hide Consistent;
  }

  ghost predicate New(t: Tables, a: Arrival) {
    a.id !in t.observations && forall k | k in a.data :: k.obsid == a.id && Digit(k.sensor)
  }

  lemma {:induction false} InsertionConsistent(t: Tables, a: Arrival, queued: bool)
    requires Consistent(t) && New(t, a)
    ensures Consistent(Inserted(t, a, queued))
  {
  }

  lemma {:induction false} InsertionKeepsRows(t: Tables, t': Tables, ids: set<int>, a: Arrival, queued: bool)
    requires Consistent(t) && t'.observations == t.observations && RowsStarted(t, t', ids)
    requires a.id !in t.observations && ids <= t.observations.Keys
    ensures RowsStarted(Inserted(t, a, queued), Inserted(t', a, queued), ids)
  {
    var s, s' := Inserted(t, a, queued), Inserted(t', a, queued);
    forall id | id in ids ensures StartedRow(s, s', id) {
      assert StartedRow(t, t', id) && Row(s, id) == Row(t, id) && s'.workque[id] == t'.workque[id];
    }
  }

  lemma {:induction false} InsertionKeepsData(pgm: set<Pgm>, defaults: map<int, Default>, t: Tables, t': Tables,
                                              ids: set<int>, a: Arrival, queued: bool)
    requires Consistent(t) && Consistent(t') && t'.observations == t.observations && ids <= t.observations.Keys
    requires DataCompleted(pgm, defaults, t, t', ids) && New(t, a)
    ensures DataCompleted(pgm, defaults, Inserted(t, a, queued), Inserted(t', a, queued), ids)
  {
    hide Complete, RowsKept, DefaultsAdded;
    var s, s' := Inserted(t, a, queued), Inserted(t', a, queued);
    MoreRowsKept(t.obsdata, t'.obsdata, a.data);
    InsertionKeepsDefaults(pgm, defaults, t, t', ids, a, queued);
    forall id | id in ids && IsWholeHour(s.observations[id].obstime)
      ensures Complete(pgm, defaults, s'.obsdata, id, s.observations[id])
    {
      KeepsAndAdds(t'.obsdata, a.data, a.id);
      StillComplete(pgm, defaults, t'.obsdata, s'.obsdata, id, t.observations[id]);
    }
  }

  lemma {:induction false} KeepsAndAdds(data: ObsData, more: ObsData, id: int)
    requires (forall k | k in more :: k.obsid == id) && (forall k | k in data :: k.obsid != id)
    ensures RowsKept(data, data + more)
  {
  }

  lemma {:induction false} MoreRowsKept(data: ObsData, data': ObsData, more: ObsData)
    requires RowsKept(data, data')
    ensures RowsKept(data + more, data' + more)
  {
  }

  lemma {:induction false} InsertionKeepsDefaults(pgm: set<Pgm>, defaults: map<int, Default>, t: Tables, t': Tables,
                                                  ids: set<int>, a: Arrival, queued: bool)
    requires ids <= t.observations.Keys && DefaultsAdded(pgm, defaults, t, t', ids) && a.id !in t.observations
    ensures DefaultsAdded(pgm, defaults, Inserted(t, a, queued), Inserted(t', a, queued), ids)
  {
    hide Scheduled;
    var s, s' := Inserted(t, a, queued), Inserted(t', a, queued);
    forall k | k in s'.obsdata && k !in s.obsdata
      ensures k.obsid in ids && DefaultFor(pgm, defaults, s, k, s'.obsdata[k])
    {
      assert k in t'.obsdata && k !in t.obsdata && DefaultFor(pgm, defaults, t, k, t'.obsdata[k]);
    }
  }

  /** One observation, by the statements of addMissingData. */
  function Advanced(pgm: set<Pgm>, defaults: map<int, Default>, t: Tables, id: int, now: int): Tables
    requires DigitsOnly(t.obsdata) && id in t.observations
  {
    t.(obsdata := DataAfter(pgm, defaults, t, id), workque := t.workque[id := Started(Row(t, id), now)])
  }

  lemma {:induction false} AdvancedProcesses(pgm: set<Pgm>, defaults: map<int, Default>, t: Tables, id: int, now: int)
    requires Consistent(t) && id in t.observations && !Stuck(pgm, defaults, t.observations[id])
    ensures Processed(pgm, defaults, t, Advanced(pgm, defaults, t, id, now), {id})
    ensures Consistent(Advanced(pgm, defaults, t, id, now))
  {
    hide Complete, DefaultFor, StartedRow;
    var t' := Advanced(pgm, defaults, t, id, now);
    assert t'.workque[id] == Started(Row(t, id), now);
    RowIsStarted(t, t', id, now);
    AdvancedData(pgm, defaults, t, t', id);
  }

  lemma {:induction false} RowIsStarted(t: Tables, t': Tables, id: int, now: int)
    requires id in t'.workque && t'.workque[id] == Started(Row(t, id), now)
    ensures StartedRow(t, t', id)
  {
  }

  lemma {:induction false} AdvancedData(pgm: set<Pgm>, defaults: map<int, Default>, t: Tables, t': Tables, id: int)
    requires DigitsOnly(t.obsdata) && id in t.observations && !Stuck(pgm, defaults, t.observations[id])
    requires t'.obsdata == DataAfter(pgm, defaults, t, id)
    ensures DataCompleted(pgm, defaults, t, t', {id})
  {
    hide Complete, Completed, Scheduled;
    if IsWholeHour(t.observations[id].obstime) {
      CompletionMeans(pgm, defaults, t.obsdata, id, t.observations[id]);
    }
  }

  // ----------------------------------------------------------------------- moving finished rows

  /** qa_stop < now() - '15 minutes'; never true of a NULL. */
  predicate Expired(w: Work, now: int) {
    w.qaStop.Some? && w.qaStop.value < now - MOVE_AFTER
  }

  function ExpiredIds(t: Tables, now: int): set<int> {
    set id | id in t.workque && Expired(t.workque[id], now)
  }

  ghost function StatIds(t: Tables): set<int> {
    set r | r in t.workstatistik :: t.workstatistik[r].obsid
  }

  ghost predicate OneStatEach(t: Tables) {
    forall r, s | r in t.workstatistik && s in t.workstatistik
                  && t.workstatistik[r].obsid == t.workstatistik[s].obsid ::
      r == s
  }

  type Statistics = map<RowId, Stat>

  /** The three statements: older statistics of the finished rows go, the finished rows are copied, and
      taken off the queue. */
  function Superseded(stats: Statistics, ids: set<int>): Statistics {
    map r | r in stats && stats[r].obsid !in ids :: stats[r]
  }

  function Finished(t: Tables, ids: set<int>): Statistics {
    map id | id in ids && id in t.workque && id in t.observations ::
      RowId(t.transactions, id) := Stat(id, t.observations[id], t.workque[id])
  }

  function Unfinished(queue: map<int, Work>, ids: set<int>): map<int, Work> {
    map id | id in queue && id !in ids :: queue[id]
  }

  ghost function Cleaned(t: Tables, now: int): Tables {
    var ids := ExpiredIds(t, now);
    t.(workstatistik := Superseded(t.workstatistik, ids) + Finished(t, ids),
       transactions := t.transactions + 1,
       workque := Unfinished(t.workque, ids))
  }

  /** The three statements, one after another. */
  lemma {:induction false} StatementsClean(t: Tables, now: int)
    ensures var t1 := t.(workstatistik := Superseded(t.workstatistik, ExpiredIds(t, now)));
            var t2 := t1.(workstatistik := t1.workstatistik + Finished(t1, ExpiredIds(t1, now)),
                          transactions := t1.transactions + 1);
            t2.(workque := Unfinished(t2.workque, ExpiredIds(t2, now))) == Cleaned(t, now)
  {
    hide Superseded, Unfinished;
  }

  lemma {:induction false} CleanedStatistics(t: Tables, now: int, r: RowId)
    requires Consistent(t)
    ensures var ids, stats := ExpiredIds(t, now), Cleaned(t, now).workstatistik;
            && (r in stats <==> (r in t.workstatistik && t.workstatistik[r].obsid !in ids)
                                || (r.transaction == t.transactions && r.obsid in ids))
            && (r.transaction == t.transactions && r.obsid in ids ==>
                  stats[r] == Stat(r.obsid, t.observations[r.obsid], t.workque[r.obsid]))
            && (r in stats && r.transaction != t.transactions ==> stats[r] == t.workstatistik[r])
  {
    var ids := ExpiredIds(t, now);
    assert ids <= t.workque.Keys;
    assert r in Finished(t, ids) <==> r.transaction == t.transactions && r.obsid in ids by {
      if r in Finished(t, ids) {
        var id :| id in ids && r == RowId(t.transactions, id);
      }
      assert r.transaction == t.transactions && r.obsid in ids ==> r == RowId(t.transactions, r.obsid);
    }
  }

  /** The statistics of an observation: the moved row alone if it was moved, else what they were. */
  lemma {:induction false} CleaningStats(t: Tables, now: int, id: int)
    requires Consistent(t)
    ensures var t' := Cleaned(t, now); var moved := RowId(t.transactions, id);
            if id in ExpiredIds(t, now)
            then StatsOf(t', id) == {moved} && t'.workstatistik[moved] == Stat(id, t.observations[id], t.workque[id])
            else StatsOf(t', id) == StatsOf(t, id) && forall r | r in StatsOf(t, id) ::
                t'.workstatistik[r] == t.workstatistik[r]
  {
    hide Superseded, Finished, Cleaned;
    var t' := Cleaned(t, now);
    forall r: RowId
      ensures r in StatsOf(t', id) <==>
          if id in ExpiredIds(t, now) then r == RowId(t.transactions, id) else r in StatsOf(t, id)
      ensures r in StatsOf(t', id) ==>
                t'.workstatistik[r] == if id in ExpiredIds(t, now) then Stat(id, t.observations[id], t.workque[id])
                                       else t.workstatistik[r]
    {
      CleanedStatistics(t, now, r);
    }
  }

  /** No observation is lost: those in the queue or the statistics are the same before and after. A row leaves
      the queue exactly when its qa_stop is set and old enough, and the others stay as they are. */
  lemma {:induction false} CleaningConserves(t: Tables, now: int)
    requires Consistent(t)
    ensures var t' := Cleaned(t, now);
            && (forall id :: id in t'.workque <==>
                  id in t.workque && (t.workque[id].qaStop.None? || t.workque[id].qaStop.value >= now - MOVE_AFTER))
            && (forall id | id in t'.workque :: t'.workque[id] == t.workque[id])
            && t'.observations == t.observations && t'.obsdata == t.obsdata
    ensures var t' := Cleaned(t, now); t'.workque.Keys + StatIds(t') == t.workque.Keys + StatIds(t)
    ensures Consistent(Cleaned(t, now))
  {
    StatisticsStayConsistent(t, now);
    QueueCleaned(t, now);
    ObservationsConserved(t, now);
    hide Consistent, StatIds, ExpiredIds, Cleaned;
  }

  lemma {:induction false} ObservationsConserved(t: Tables, now: int)
    requires Consistent(t)
    ensures var t' := Cleaned(t, now); t'.workque.Keys + StatIds(t') == t.workque.Keys + StatIds(t)
  {
    hide Consistent, StatIds, ExpiredIds, Cleaned;
    var t' := Cleaned(t, now);
    forall id ensures id in t'.workque.Keys + StatIds(t') <==> id in t.workque.Keys + StatIds(t) {
      ObservationConserved(t, now, id);
    }
  }

  lemma {:induction false} ObservationConserved(t: Tables, now: int, id: int)
    requires Consistent(t)
    ensures var t' := Cleaned(t, now);
            id in t'.workque.Keys + StatIds(t') <==> id in t.workque.Keys + StatIds(t)
  {
    var t' := Cleaned(t, now);
    QueueCleaned(t, now);
    hide Finished, Superseded, StatIds, StatsOf, Cleaned;
    CleaningStats(t, now, id);
    StatIdsHaveStats(t, id);
    StatIdsHaveStats(t', id);
  }

  lemma {:induction false} QueueCleaned(t: Tables, now: int)
    ensures var t' := Cleaned(t, now);
            && (forall id :: id in t'.workque <==>
                  id in t.workque && (t.workque[id].qaStop.None? || t.workque[id].qaStop.value >= now - MOVE_AFTER))
            && (forall id | id in t'.workque :: t'.workque[id] == t.workque[id])
            && t'.workque.Keys == t.workque.Keys - ExpiredIds(t, now)
            && t'.observations == t.observations && t'.obsdata == t.obsdata
  {
    hide Finished, Superseded;
  }

  lemma {:induction false} StatisticsStayConsistent(t: Tables, now: int)
    requires Consistent(t)
    ensures Consistent(Cleaned(t, now))
  {
  }

  lemma {:induction false} StatIdsHaveStats(t: Tables, id: int)
    ensures id in StatIds(t) <==> StatsOf(t, id) != {}
  {
    if id in StatIds(t) {
      var r :| r in t.workstatistik && t.workstatistik[r].obsid == id;
      assert r in StatsOf(t, id);
    }
    if StatsOf(t, id) != {} {
      var r :| r in StatsOf(t, id);
    }
  }

  /** One row each stays one row each, the queue's row in the place of an older one. */
  lemma {:induction false} CleaningKeepsOneEach(t: Tables, now: int)
    requires Consistent(t) && OneStatEach(t)
    ensures OneStatEach(Cleaned(t, now))
  {
    var t' := Cleaned(t, now);
    forall r, s | r in t'.workstatistik && s in t'.workstatistik
                  && t'.workstatistik[r].obsid == t'.workstatistik[s].obsid
      ensures r == s
    {
      CleaningStats(t, now, t'.workstatistik[r].obsid);
      assert r in StatsOf(t', t'.workstatistik[r].obsid) && s in StatsOf(t', t'.workstatistik[r].obsid);
    }
  }

  /** A second move at the same time changes no row. */
  lemma {:induction false} CleaningIdempotent(t: Tables, now: int)
    requires Consistent(t)
    ensures var t' := Cleaned(t, now); Cleaned(t', now) == t'.(transactions := t'.transactions + 1)
  {
    CleaningConserves(t, now);
    NothingExpired(Cleaned(t, now), now);
  }

  lemma {:induction false} NothingMoved(t: Tables)
    ensures Superseded(t.workstatistik, {}) == t.workstatistik && Finished(t, {}) == map[]
    ensures Unfinished(t.workque, {}) == t.workque
  {
  }

  lemma {:induction false} NothingExpired(t: Tables, now: int)
    requires ExpiredIds(t, now) == {}
    ensures Cleaned(t, now) == t.(transactions := t.transactions + 1)
  {
    hide ExpiredIds, Superseded, Finished, Unfinished;
    NothingMoved(t);
    assert t.workstatistik + map[] == t.workstatistik;
  }

  // --------------------------------------------------------------------- the steps on the database

  /** What the database makes of one transaction: an error in any of its statements, or a commit at `now`. */
  datatype Turn = Fails | Works(now: int)

  /** What is waiting is what would be, but for what has been started; nothing stuck has been. */
  ghost predicate Progress(pgm: set<Pgm>, defaults: map<int, Default>, world: Tables, t: Tables, started: set<int>,
                           commits: nat) {
    && started * world.observations.Keys <= Unstarted(world) && Unstarted(t) == Unstarted(world) - started
    && commits == |started| && started !! StuckIds(pgm, defaults, world)
    && t.observations == world.observations
  }

  /** The tables are as if all data in `world` had been there from the start, and `started` of it been started and
      completed since; what has been replaced is in neither. */
  ghost predicate AsIfThere(pgm: set<Pgm>, defaults: map<int, Default>, world: Tables, t: Tables, started: set<int>,
                            commits: nat) {
    && Consistent(world) && Consistent(t) && Progress(pgm, defaults, world, t, started, commits)
    && Processed(pgm, defaults, world, t, started * world.observations.Keys)
  }

  class KvalobsDatabaseAccess {
    const pgm: set<Pgm>
    const defaults: map<int, Default>
    var tables: Tables
    var saved: Tables

    constructor (pgm: set<Pgm>, defaults: map<int, Default>, tables: Tables)
      ensures this.pgm == pgm && this.defaults == defaults && this.tables == tables
    {
      this.pgm, this.defaults, this.tables, this.saved := pgm, defaults, tables, tables;
    }

    method BeginTransaction()
      modifies this`saved
      ensures saved == tables
    {
      saved := tables;
    }

    method RollBack()
      modifies this`tables
      ensures tables == saved
    {
      tables := saved;
    }

    /** Fails, with the error of the insert statement, for an observation that is stuck; the caller rolls back. */
    method AddMissingData(id: int, now: int) returns (ok: bool)
      requires Consistent(tables) && id in tables.observations
      modifies this`tables
      ensures ok <==> !Stuck(pgm, defaults, old(tables).observations[id])
      ensures ok ==> Processed(pgm, defaults, old(tables), tables, {id}) && Consistent(tables)
      ensures ok ==> id in tables.workque && tables.workque[id] == Started(Row(old(tables), id), now)
      ensures !ok ==> tables == old(tables)
    {
      var o := tables.observations[id];
      CompletesUnlessPoisoned(pgm, defaults, tables.obsdata, id, o);
      if IsWholeHour(o.obstime) {
        if !CanComplete(pgm, defaults, tables.obsdata, id, o) {
          return false;
        }
        tables := tables.(obsdata := Completed(pgm, defaults, tables.obsdata, id, o));
      }
      if id !in tables.workque {
        tables := tables.(workque := tables.workque[id := Work(PRIORITY, Some(now), None, None, None, None, None)]);
      } else {
        var w := tables.workque[id];
        w := w.(processStart := Some(now), qaStart := None, qaStop := None, serviceStart := None, serviceStop := None);
        tables := tables.(workque := tables.workque[id := w]);
      }
      assert tables == Advanced(pgm, defaults, old(tables), id, now);
      AdvancedProcesses(pgm, defaults, old(tables), id, now);
      return true;
    }

    /** Any row whose process_start is NULL; the query does not say which. */
    method NextDataToProcess() returns (id: Option<int>)
      ensures id.None? ==> Unstarted(tables) == {}
      ensures id.Some? ==> id.value in Unstarted(tables)
    {
      var waiting: set<int> := Unstarted(tables);
      if next: int :| next in waiting {
        id := Some(next);
      } else {
        assert waiting <= {} by {
          forall i: int | i in waiting ensures false {
          }
        }
        id := None;
      }
    }

    /** One turn of the loop: a transaction that starts one row, or is rolled back. */
    method OneTurn(turn: Turn) returns (id: Option<int>)
      requires Consistent(tables)
      modifies this
      ensures Consistent(tables)
      ensures id.None? ==> tables == old(tables)
      ensures id.Some? ==>
                && id.value in old(Unstarted(tables)) && id.value !in StuckIds(pgm, defaults, old(tables))
                && Processed(pgm, defaults, old(tables), tables, {id.value})
                && Unstarted(tables) == old(Unstarted(tables)) - {id.value}
      ensures id.Some? ==> turn.Works?
      ensures turn.Works? && old(Unstarted(tables)) != {} ==>
                old(Unstarted(tables)) !! StuckIds(pgm, defaults, old(tables)) ==> id.Some?
    {
      BeginTransaction();
      if turn.Fails? {
        RollBack();
        return None;
      }
      id := NextDataToProcess();
      if id.None? {
        RollBack();
        return;
      }
      var ok := AddMissingData(id.value, turn.now);
      if !ok {
        RollBack();
        return None;
      }
      ProcessedUnstarted(pgm, defaults, old(tables), tables, id.value);
    }

    /** The loop of ObservationComplete, for as many turns as it is given before it is stopped, with data arriving
        in between. What is there in the end, but for what has been replaced, is as if it had all been there from
        the start: each commit starts one row, and what is queued again is started again. A stuck observation is
        never started, however often it is tried; while none waits, every transaction that works starts a row or
        finds none waiting, so without arrivals the queue drains. */
    method CompleteObservations(turns: seq<Turn>, arrivals: seq<Option<Arrival>>)
      returns (ghost started: set<int>, commits: nat, ghost idles: nat)
      requires Consistent(tables) && |arrivals| == |turns| && AllFresh(tables, arrivals)
      modifies this
      ensures Consistent(tables)
      ensures AsIfThere(pgm, defaults, World(old(tables), arrivals, |arrivals|), tables, started, commits)
      ensures NoneStuck(pgm, defaults, old(tables), arrivals, |arrivals|) ==> commits + idles == Working(turns, |turns|)
      ensures NoArrivals(arrivals) && old(Unstarted(tables)) !! StuckIds(pgm, defaults, old(tables)) ==>
                commits == Min(Working(turns, |turns|), |old(Unstarted(tables))|)
    {
      hide AsIfThere, Stuck, Arrived, Consistent, AllFresh, Unstarted, StuckIds, Fresh, World, Used, NoneStuck;
      ghost var first := tables;
      StartsAsIfThere(pgm, defaults, tables);
      NoWorldYet(tables, arrivals);
      started, commits, idles := {}, 0, 0;
      for i := 0 to |turns|
        invariant AsIfThere(pgm, defaults, World(first, arrivals, i), tables, started, commits)
        invariant started <= Used(first, arrivals, i)
        invariant NoneStuck(pgm, defaults, first, arrivals, i) ==> commits + idles == Working(turns, i)
        invariant NoArrivals(arrivals) && Unstarted(first) !! StuckIds(pgm, defaults, first) ==>
                    commits == Min(Working(turns, i), |Unstarted(first)|)
      {
        FreshAt(first, arrivals, i);
        NoneArrives(first, arrivals, i + 1);
        KnownAreUsed(first, arrivals, i + 1);
        ghost var world, used := World(first, arrivals, i), Used(first, arrivals, i);
        var id := NextTurn(arrivals[i], turns[i], world, used, started, commits);
        if id.Some? {
          started, commits := started + {id.value}, commits + 1;
        } else if turns[i].Works? && Unstarted(tables) == {} {
          idles := idles + 1;
        }
        NoneStuckAt(pgm, defaults, first, arrivals, i + 1);
        if NoArrivals(arrivals) && Unstarted(first) !! StuckIds(pgm, defaults, first) {
          AllAreLive(pgm, defaults, first, tables, started, commits);
          CountOn(started, Unstarted(first), Working(turns, i), turns[i].Works?, id.Some?);
        }
      }
      assert Consistent(tables) by {
        AsIfThereMeans(pgm, defaults, World(first, arrivals, |arrivals|), tables, started, commits);
      }
    }

    /** One turn, behind what has arrived. `world` are the tables as they would be if nothing had been started. */
    method NextTurn(a: Option<Arrival>, turn: Turn, ghost world: Tables, ghost used: set<int>, ghost started: set<int>,
                    ghost commits: nat)
      returns (id: Option<int>)
      requires Fresh(world, used, a) && started <= used
      requires AsIfThere(pgm, defaults, world, tables, started, commits)
      modifies this
      ensures var world' := Arrived(world, a);
              if id.Some? then
                && AsIfThere(pgm, defaults, world', tables, started + {id.value}, commits + 1)
                && turn.Works? && id.value !in started && id.value in world'.observations
              else
                && AsIfThere(pgm, defaults, world', tables, started, commits)
                && (turn.Works? && Unstarted(world') !! StuckIds(pgm, defaults, world') ==> Unstarted(tables) == {})
    {
      hide AsIfThere, Stuck, Arrived, Consistent, Unstarted, StuckIds, Fresh, Processed;
      ghost var world' := Arrived(world, a);
      BehindArrival(pgm, defaults, world, tables, started, commits, used, a);
      tables := Arrived(tables, a);
      ghost var now := tables;
      AsIfThereMeans(pgm, defaults, world', now, started, commits);
      SameStuck(pgm, defaults, world', now);
      id := OneTurn(turn);
      if id.Some? {
        OneMoreStarted(pgm, defaults, world', now, tables, started, commits, id.value);
      } else if turn.Works? && Unstarted(world') !! StuckIds(pgm, defaults, world') {
        NothingWaits(pgm, defaults, world', now, started, commits);
      }
    }

    /** One transaction; on an error it is rolled back. */
    method CleanWorkQueue(turn: Turn)
      requires Consistent(tables)
      modifies this
      ensures turn.Fails? ==> tables == old(tables)
      ensures turn.Works? ==> tables == Cleaned(old(tables), turn.now)
      ensures Consistent(tables)
      ensures tables.workque.Keys + StatIds(tables) == old(tables.workque.Keys + StatIds(tables))
      ensures old(OneStatEach(tables)) ==> OneStatEach(tables)
    {
      BeginTransaction();
      if turn.Fails? {
        RollBack();
        return;
      }
      hide Consistent, StatIds, OneStatEach, Cleaned, ExpiredIds, Finished, Superseded, Unfinished;
      CleaningConserves(tables, turn.now);
      if OneStatEach(tables) {
        CleaningKeepsOneEach(tables, turn.now);
      }
      StatementsClean(tables, turn.now);
      tables := tables.(workstatistik := Superseded(tables.workstatistik, ExpiredIds(tables, turn.now)));
      tables := tables.(workstatistik := tables.workstatistik + Finished(tables, ExpiredIds(tables, turn.now)),
                        transactions := tables.transactions + 1);
      tables := tables.(workque := Unfinished(tables.workque, ExpiredIds(tables, turn.now)));
    }
  }

  // ---------------------------------------------------------------------- lemmas on arrivals

  lemma {:induction false} StartsAsIfThere(pgm: set<Pgm>, defaults: map<int, Default>, t: Tables)
    requires Consistent(t)
    ensures AsIfThere(pgm, defaults, t, t, {}, 0)
  {
    ProcessedNone(pgm, defaults, t);
    hide Processed, Consistent, Stuck;
    assert {} * t.observations.Keys == {} && Unstarted(t) - {} == Unstarted(t);
  }

  lemma {:induction false} AsIfThereMeans(pgm: set<Pgm>, defaults: map<int, Default>, world: Tables, t: Tables,
                                          started: set<int>, commits: nat)
    requires AsIfThere(pgm, defaults, world, t, started, commits)
    ensures Consistent(world) && Consistent(t) && Progress(pgm, defaults, world, t, started, commits)
  {
  }

  lemma {:induction false} BehindArrival(pgm: set<Pgm>, defaults: map<int, Default>, world: Tables, t: Tables,
                                         started: set<int>, commits: nat, used: set<int>, a: Option<Arrival>)
    requires AsIfThere(pgm, defaults, world, t, started, commits) && Fresh(world, used, a) && started <= used
    ensures AsIfThere(pgm, defaults, Arrived(world, a), Arrived(t, a), started, commits)
  {
    hide Processed, Stuck, StuckIds, Arrived, Consistent, Unstarted, Fresh, Queued;
    ArrivalKeepsProcessed(pgm, defaults, world, t, started * world.observations.Keys, used, a);
    LiveLeft(world, started, used, a);
    ArrivalKeepsProgress(pgm, defaults, world, t, started, used, a);
  }

  lemma {:induction false} OneMoreStarted(pgm: set<Pgm>, defaults: map<int, Default>, world: Tables, t: Tables,
                                          t': Tables, started: set<int>, commits: nat, id: int)
    requires AsIfThere(pgm, defaults, world, t, started, commits) && Consistent(t')
    requires id in Unstarted(t) && id !in StuckIds(pgm, defaults, t)
    requires Processed(pgm, defaults, t, t', {id}) && Unstarted(t') == Unstarted(t) - {id}
    ensures AsIfThere(pgm, defaults, world, t', started + {id}, commits + 1)
    ensures id !in started && id in world.observations
  {
    hide Processed, Stuck, StuckIds, Consistent, Unstarted;
    var live := started * world.observations.Keys;
    WaitingIsKnown(t, id);
    SameStuck(pgm, defaults, world, t);
    ProcessedObservations(pgm, defaults, t, t', Some(id));
    ProcessedMore(pgm, defaults, world, t, t', live, id);
    assert (started + {id}) * world.observations.Keys == live + {id};
    assert Unstarted(world) - (started + {id}) == Unstarted(t) - {id};
  }

  /** When nothing stuck would be waiting, nothing stuck is. */
  lemma {:induction false} NothingWaits(pgm: set<Pgm>, defaults: map<int, Default>, world: Tables, t: Tables,
                                        started: set<int>, commits: nat)
    requires AsIfThere(pgm, defaults, world, t, started, commits)
    requires Unstarted(world) !! StuckIds(pgm, defaults, world)
    ensures Unstarted(t) !! StuckIds(pgm, defaults, t)
  {
    hide Processed, Stuck, StuckIds, Consistent, Unstarted;
    SameStuck(pgm, defaults, world, t);
  }

  lemma {:induction false} NoWorldYet(t: Tables, arrivals: seq<Option<Arrival>>)
    ensures World(t, arrivals, 0) == t
  {
  }

  lemma {:induction false} NoneStuckAt(pgm: set<Pgm>, defaults: map<int, Default>, t: Tables,
                                       arrivals: seq<Option<Arrival>>, n: nat)
    requires 0 < n <= |arrivals|
    ensures NoneStuck(pgm, defaults, t, arrivals, n) ==>
              && NoneStuck(pgm, defaults, t, arrivals, n - 1)
              && Unstarted(World(t, arrivals, n)) !! StuckIds(pgm, defaults, World(t, arrivals, n))
  {
    hide Unstarted, StuckIds, World;
  }

  /** Without arrivals nothing is replaced. */
  lemma {:induction false} AllAreLive(pgm: set<Pgm>, defaults: map<int, Default>, world: Tables, t: Tables,
                                      started: set<int>, commits: nat)
    requires AsIfThere(pgm, defaults, world, t, started, commits) && started <= world.observations.Keys
    ensures started <= Unstarted(world) && commits == |started| && Unstarted(t) == Unstarted(world) - started
    ensures Unstarted(t) == {} ==> Unstarted(world) <= started
  {
    hide Processed, Stuck, StuckIds, Consistent, Unstarted;
    assert started * world.observations.Keys == started;
    if Unstarted(t) == {} {
      forall id | id in Unstarted(world) ensures id in started {
        assert id !in Unstarted(world) - started;
      }
    }
  }

  lemma {:induction false} CountOn(started: set<int>, waiting: set<int>, working: nat, works: bool, commits: bool)
    requires started <= waiting && (commits ==> works)
    requires |started| - (if commits then 1 else 0) == Min(working, |waiting|)
    requires works && !commits ==> waiting <= started
    ensures |started| == Min(working + if works then 1 else 0, |waiting|)
  {
    Sets.SubsetIsSmaller(started, waiting);
    if waiting <= started {
      assert waiting == started;
    }
  }

  lemma {:induction false} KnownAreUsed(t: Tables, arrivals: seq<Option<Arrival>>, n: nat)
    requires n <= |arrivals|
    ensures World(t, arrivals, n).observations.Keys <= Used(t, arrivals, n)
    ensures NoArrivals(arrivals) ==> Used(t, arrivals, n) == t.observations.Keys
    ensures n > 0 ==> Used(t, arrivals, n - 1) <= Used(t, arrivals, n)
  {
    hide Queued, Kept;
    if n > 0 {
      KnownAreUsed(t, arrivals, n - 1);
    }
  }

  ghost predicate NoArrivals(arrivals: seq<Option<Arrival>>) { forall n | 0 <= n < |arrivals| :: arrivals[n].None? }

  /** In none of the first n worlds a stuck observation waits. */
  ghost predicate NoneStuck(pgm: set<Pgm>, defaults: map<int, Default>, t: Tables, arrivals: seq<Option<Arrival>>,
                            n: nat)
    requires n <= |arrivals|
  {
    forall i: nat | i <= n ::
      Unstarted(World(t, arrivals, i)) !! StuckIds(pgm, defaults, World(t, arrivals, i))
  }

  lemma {:induction false} FreshAt(t: Tables, arrivals: seq<Option<Arrival>>, n: nat)
    requires AllFresh(t, arrivals) && n < |arrivals|
    ensures Fresh(World(t, arrivals, n), Used(t, arrivals, n), arrivals[n])
    ensures World(t, arrivals, n + 1) == Arrived(World(t, arrivals, n), arrivals[n])
  {
  }

  lemma {:induction false} NoneArrives(t: Tables, arrivals: seq<Option<Arrival>>, n: nat)
    requires n <= |arrivals|
    ensures NoArrivals(arrivals) ==> World(t, arrivals, n) == t
  {
    if n > 0 {
      NoneArrives(t, arrivals, n - 1);
    }
  }

  lemma {:induction false} ArrivalKeepsProgress(pgm: set<Pgm>, defaults: map<int, Default>, world: Tables, t: Tables,
                                                started: set<int>, used: set<int>, a: Option<Arrival>)
    requires Consistent(world) && Consistent(t) && Fresh(world, used, a) && started <= used
    requires t.observations == world.observations && (a.Some? ==> Queued(t, a.value) == Queued(world, a.value))
    requires started * world.observations.Keys <= Unstarted(world) && Unstarted(t) == Unstarted(world) - started
    requires started !! StuckIds(pgm, defaults, world)
    ensures var world', t' := Arrived(world, a), Arrived(t, a);
            && started * world'.observations.Keys <= Unstarted(world') && Unstarted(t') == Unstarted(world') - started
            && started !! StuckIds(pgm, defaults, world') && t'.observations == world'.observations
  {
    UnstartedArrives(world, a);
    UnstartedArrives(t, a);
    ArrivedStuck(pgm, defaults, world, used, a);
    hide Stuck, StuckIds, Unstarted;
  }

  lemma {:induction false} ProcessedObservations(pgm: set<Pgm>, defaults: map<int, Default>, t: Tables, t': Tables,
                                                 id: Option<int>)
    requires if id.None? then t' == t else Processed(pgm, defaults, t, t', {id.value})
    ensures t'.observations == t.observations
  {
  }

  /** What waits behind an arrival. */
  lemma {:induction false} UnstartedArrives(t: Tables, a: Option<Arrival>)
    requires Consistent(t) && (a.Some? ==> a.value.id !in t.observations)
    ensures Unstarted(t) <= t.observations.Keys
    ensures a.Some? ==>
              Unstarted(Arrived(t, a)) == Left(Unstarted(t), a) + if Queued(t, a.value) then {a.value.id} else {}
  {
    hide Queued, Kept;
    if a.Some? {
      ArrivedMeans(t, a.value);
      forall id
        ensures id in Unstarted(Arrived(t, a)) <==>
                  id in Left(Unstarted(t), a) || (Queued(t, a.value) && id == a.value.id)
      {
      }
    }
  }

  lemma {:induction false} LiveLeft(world: Tables, started: set<int>, used: set<int>, a: Option<Arrival>)
    requires Fresh(world, used, a) && started <= used
    ensures started * Arrived(world, a).observations.Keys == Left(started * world.observations.Keys, a)
  {
    if a.Some? {
      hide Fresh, Queued, Kept;
      assert a.value.id !in used;
    }
  }

  /** An arrival that is queued at all never shortens the queue of unstarted rows: only a commit does. Without, it
      does exactly when it replaces an observation that had not been started. */
  lemma {:induction false} ArrivalShortensIff(t: Tables, used: set<int>, a: Arrival)
    requires Consistent(t) && Fresh(t, used, Some(a))
    ensures |Unstarted(Arrived(t, Some(a)))| < |Unstarted(t)| <==>
              !a.addToQueue && a.former.Some? && a.former.value in Unstarted(t)
  {
    UnstartedArrives(t, Some(a));
    var before := Unstarted(t);
    assert a.id !in before;
    assert a.former.Some? && a.former.value in before ==> Unprocessed(t, a.former);
    hide Consistent, Fresh, Unstarted, Arrived, Unprocessed;
    if a.former.Some? && a.former.value in before {
      assert |before - {a.former.value}| == |before| - 1;
    } else {
      assert Left(before, Some(a)) == before;
    }
  }

  /** Replacing an observation keeps one statistic each, and never loses that of a finished row. */
  lemma {:induction false} ReplacingKeepsStatistics(t: Tables, stale: int)
    requires Consistent(t)
    ensures OneStatEach(t) ==> OneStatEach(Replaced(t, stale))
    ensures stale in t.workque && t.workque[stale].qaStop.Some? ==> stale in StatIds(Replaced(t, stale))
    ensures StatIds(t) <= StatIds(Replaced(t, stale))
  {
    var t' := Replaced(t, stale);
    assert forall r | r in t.workstatistik :: r in t'.workstatistik && t'.workstatistik[r] == t.workstatistik[r];
    if OneStatEach(t) {
      forall r, s | r in t'.workstatistik && s in t'.workstatistik
                    && t'.workstatistik[r].obsid == t'.workstatistik[s].obsid
        ensures r == s
      {
        assert t'.workstatistik[r].obsid == stale && r in t.workstatistik ==> r in StatsOf(t, stale);
        assert t'.workstatistik[s].obsid == stale && s in t.workstatistik ==> s in StatsOf(t, stale);
      }
    }
    if stale in t.workque && t.workque[stale].qaStop.Some? {
      if StatsOf(t, stale) == {} {
        assert RowId(t.transactions, stale) in t'.workstatistik;
      } else {
        var r :| r in StatsOf(t, stale);
        assert t'.workstatistik[r].obsid == stale;
      }
    }
  }

  lemma {:induction false} ArrivedStuck(pgm: set<Pgm>, defaults: map<int, Default>, t: Tables, used: set<int>,
                                        a: Option<Arrival>)
    requires Fresh(t, used, a)
    ensures StuckIds(pgm, defaults, Arrived(t, a)) <=
              StuckIds(pgm, defaults, t) + if a.Some? then {a.value.id} else {}
  {
    hide Stuck;
  }

  lemma {:induction false} SameStuck(pgm: set<Pgm>, defaults: map<int, Default>, t: Tables, t': Tables)
    requires t.observations == t'.observations
    ensures StuckIds(pgm, defaults, t) == StuckIds(pgm, defaults, t')
  {
  }

  // -------------------------------------------------------------------------------- counting

  function Min(a: int, b: int): int { if a < b then a else b }

  /** How many of the first n turns the database goes along with. */
  function Working(turns: seq<Turn>, n: nat): nat
    requires n <= |turns|
  {
    if n == 0 then 0 else Working(turns, n - 1) + if turns[n - 1].Works? then 1 else 0
  }

  lemma {:induction false} WaitingIsKnown(t: Tables, id: int)
    requires Consistent(t) && id in Unstarted(t)
    ensures id in t.observations
  {
  }
}
