/** The paged iterator over the work statistics: no filter, and any of seven time columns, of which those
    behind the observation may be NULL. */
module Workstatistik {
  import opened Requests
  import opened Paging

  datatype TimeType = ObsTime | TbTime | ProcessStartTime | QaStartTime | QaStopTime | ServiceStartTime
      | ServiceStopTime

  datatype Workelement = Workelement(stationid: int, obstime: int, typeid: int, tbtime: int, priority: int,
                                     processStart: Option<int>, qaStart: Option<int>, qaStop: Option<int>,
                                     serviceStart: Option<int>, serviceStop: Option<int>)

  /** The column the rows are selected and ordered by. */
  function Column(timeType: TimeType, row: Workelement): Option<int> {
    match timeType
    case ObsTime => Some(row.obstime)
    case TbTime => Some(row.tbtime)
    case ProcessStartTime => row.processStart
    case QaStartTime => row.qaStart
    case QaStopTime => row.qaStop
    case ServiceStartTime => row.serviceStart
    case ServiceStopTime => row.serviceStop
  }

  function Time(timeType: TimeType): Workelement -> Option<int> { (row: Workelement) => Column(timeType, row) }

  class WorkstatistikIteratorImpl {
    const table: seq<Workelement>
    const timeType: TimeType
    const selectOk: nat -> bool
    const toTime: int

    var dbCon: bool
    var active: bool
    var dataList: seq<Workelement>
    var dataIt: nat
    var currentEnd: int
    var selects: nat

    ghost predicate Valid()
      reads this
    {
      Ordered(table, Time(timeType)) && dataIt <= |dataList|
    }

    /** The rows still to be delivered. */
    ghost function Remaining(): seq<Workelement>
      requires Valid()
      reads this
    {
      dataList[dataIt..] + Later(currentEnd)
    }

    ghost function Later(fromTime: int): seq<Workelement> {
      Between(table, Time(timeType), fromTime, toTime)
    }

    constructor (table: seq<Workelement>, fromTime: int, toTime: int, timeType: TimeType, selectOk: nat -> bool)
      requires Ordered(table, Time(timeType))
      ensures Valid() && dbCon && active && this.selectOk == selectOk
      ensures Remaining() == Between(table, Time(timeType), fromTime, toTime)
    {
      this.table, this.timeType, this.selectOk, this.toTime := table, timeType, selectOk, toTime;
      dbCon, active, dataList, dataIt, currentEnd, selects := true, true, [], 0, fromTime, 0;
    }

    method FillData(toData: seq<Workelement>) returns (data: seq<Workelement>)
      requires Valid() && |toData| <= COUNT_MAX
      modifies `dataIt
      ensures Valid() && |data| <= COUNT_MAX && (|data| < COUNT_MAX ==> dataIt == |dataList|)
      ensures toData + old(Remaining()) == data + Remaining()
    {
      hide Between;
      data := toData;
      while |data| < COUNT_MAX && dataIt < |dataList|
        invariant Valid() && |data| <= COUNT_MAX
        invariant toData + dataList[old(dataIt)..] == data + dataList[dataIt..]
        decreases |dataList| - dataIt
      {
        assert dataList[dataIt..] == [dataList[dataIt]] + dataList[dataIt + 1..];
        Regroup(data, [dataList[dataIt]], dataList[dataIt + 1..]);
        data := data + [dataList[dataIt]];
        dataIt := dataIt + 1;
      }
      Regroup(toData, dataList[old(dataIt)..], Later(currentEnd));
      Regroup(data, dataList[dataIt..], Later(currentEnd));
    }

    method FindData() returns (ok: bool, data: seq<Workelement>)
      requires Valid()
      modifies `dataIt, `dataList, `currentEnd, `selects
      ensures Valid()
      ensures ok ==> TakesPage(old(Remaining()), data, Remaining())
      ensures (forall k :: selectOk(k)) ==> ok
    {
      hide Remaining, Later, Between, Ordered;
      ghost var owed := Remaining();
      ok := true;
      data := FillData([]);
      if |data| >= COUNT_MAX {
        return;
      }
      if currentEnd >= toTime {
        AllSelected();
        return;
      }
      while currentEnd < toTime && |data| < COUNT_MAX
        invariant Valid() && currentEnd <= toTime && |data| <= COUNT_MAX
        invariant |data| < COUNT_MAX ==> dataIt == |dataList|
        invariant owed == data + Remaining()
        decreases toTime - currentEnd
      {
        Exhausted();
        var fromTime := currentEnd;
        currentEnd := currentEnd + TIMESTEP;
        if currentEnd > toTime {
          currentEnd := toTime;
        }
        dataList := [];
        dataIt := 0;
        if !selectOk(selects) {
          selects := selects + 1;
          ok := false;
          return;
        }
        selects := selects + 1;
        dataList := Between(table, Time(timeType), fromTime, currentEnd);
        Loaded(fromTime);
        data := FillData(data);
      }
      if |data| < COUNT_MAX {
        AllSelected();
      }
    }

    lemma {:induction false} AllSelected()
      requires Valid() && dataIt == |dataList| && toTime <= currentEnd
      ensures Remaining() == []
    {
      BetweenNone(table, Time(timeType), currentEnd, toTime);
    }

    lemma {:induction false} Exhausted()
      requires Valid() && dataIt == |dataList|
      ensures Remaining() == Later(currentEnd)
    {
    }

    /** With the rows of the next window in hand and the cursor at their start, nothing is lost. */
    lemma {:induction false} Loaded(fromTime: int)
      requires Valid() && fromTime <= currentEnd <= toTime
      requires dataIt == 0 && dataList == Between(table, Time(timeType), fromTime, currentEnd)
      ensures Remaining() == Later(fromTime)
    {
      assert dataList[0..] == dataList;
      BetweenSplit(table, Time(timeType), fromTime, currentEnd, toTime);
    }

    /** The next page; false when everything is delivered, when a select fails, or after a destroy. */
    method Next() returns (more: bool, page: seq<Workelement>)
      requires Valid()
      modifies `dataIt, `dataList, `currentEnd, `selects
      ensures Valid()
      ensures !dbCon || !active ==> !more && unchanged(this)
      ensures more ==> 0 < |page| && TakesPage(old(Remaining()), page, Remaining())
      ensures !more && dbCon && active && (forall k :: selectOk(k)) ==> old(Remaining()) == []
    {
      more, page := false, [];
      if !dbCon || !active {
        return;
      }
      var ok, data := FindData();
      if !ok || |data| == 0 {
        return;
      }
      more, page := true, data;
    }
  }

  /** A client that calls next until it returns false receives exactly the rows whose time column is set and
      lies in the interval, in its order, in full pages but the last. */
  method Drain(it: WorkstatistikIteratorImpl) returns (pages: seq<seq<Workelement>>)
    requires it.Valid() && it.dbCon && it.active
    modifies it
    ensures WellPaged(pages) && Flatten(pages) <= old(it.Remaining())
    ensures (forall k :: it.selectOk(k)) ==> Flatten(pages) == old(it.Remaining())
  {
    pages := [];
    ghost var owed, rest := it.Remaining(), it.Remaining();
    hide Between;
    var more := true;
    while more
      invariant it.Valid() && it.dbCon && it.active
      invariant PagedSoFar(owed, pages, rest)
      invariant more ==> rest == it.Remaining()
      invariant !more && (forall k :: it.selectOk(k)) ==> rest == []
      decreases more, |rest|
    {
      var page;
      more, page := it.Next();
      if more {
        OnePageMore(owed, pages, rest, page, it.Remaining());
        pages, rest := pages + [page], it.Remaining();
      }
    }
  }
}
