/** The data iterator of kvServiced: a request is answered in windows of three or twelve hours. */
module DataIterator {
  import opened ObsRecords
  import opened ObsAssembly
  import opened Requests
  import opened Windows

  function Minute(obstime: int): int { obstime / 60 % 60 }

  /** All rows fall on one minute of the hour (or there are no rows). */
  method IsHourDataCheck(dataList: seq<Data>) returns (r: bool)
    ensures r <==> forall i | 0 <= i < |dataList| :: Minute(dataList[i].obstime) == Minute(dataList[0].obstime)
  {
    var minuteMap: map<int, nat> := map[];
    for k := 0 to |dataList|
      invariant k == 0 ==> minuteMap == map[]
      invariant k > 0 ==> minuteMap != map[]
      invariant forall i | 0 <= i < k :: Minute(dataList[i].obstime) in minuteMap
      invariant if forall i | 0 <= i < k :: Minute(dataList[i].obstime) == Minute(dataList[0].obstime)
                then k > 0 ==> minuteMap.Keys == {Minute(dataList[0].obstime)} && |minuteMap| == 1
                else |minuteMap| >= 2
    {
      var minute := Minute(dataList[k].obstime);
      minuteMap := minuteMap[minute := if minute in minuteMap then minuteMap[minute] + 1 else 1];
    }
    r := |minuteMap| <= 1;
  }

  class DataIteratorImpl {
    const db: Tables
    /** Whether the k-th select on the data and on the text table succeeds. */
    const dataOk: nat -> bool
    const textOk: nat -> bool
    const startTimeOfGetData: int

    var dbCon: bool                         // the connection is held
    var active: bool
    var whichData: Option<seq<WhichData>>   // None once it is deleted
    var iData: nat
    var currentEndTime: Option<int>
    var endTime: Option<int>
    var isHourData: int
    var selects: nat
    /** How often the connection has been given back. */
    ghost var released: nat

    ghost predicate Valid()
      reads this
    {
      && db.Valid()
      && (whichData.None? ==> !dbCon)
      && released == (if dbCon then 0 else 1)
      && -1 <= isHourData <= 1
      && (whichData.Some? ==> iData <= |whichData.value|)
      && (currentEndTime.Some? && whichData.Some? ==>
            iData < |whichData.value| && endTime.Some? && currentEndTime.value < endTime.value)
    }

    /** Holds between calls as long as no data select has failed: the test for hourly data is due
        exactly at the start of an entry. */
    ghost predicate Settled()
      reads this
    {
      currentEndTime.None? <==> isHourData == -1
    }

    /** The records still owed to the client, whatever windows they will come in. */
    ghost function Remaining(): seq<ObsRecord>
      requires Valid()
      reads this
    {
      if whichData.None? then []
      else Owed(db, whichData.value, iData, currentEndTime, endTime, startTimeOfGetData, true)
    }

    /** One step nearer to the end of the request: a later entry, or a later time in the same one. */
    twostate predicate Advanced()
      reads this
    {
      || old(iData) < iData
      || (old(iData) == iData && old(currentEndTime).None? && currentEndTime.Some?)
      || (old(iData) == iData && old(currentEndTime).Some? && currentEndTime.Some?
          && old(currentEndTime).value < currentEndTime.value && endTime == old(endTime))
    }

    constructor (db: Tables, whichData: seq<WhichData>, now: int, dataOk: nat -> bool, textOk: nat -> bool)
      requires db.Valid()
      ensures Valid() && Settled() && this.dbCon && this.active && this.whichData == Some(whichData)
      ensures this.dataOk == dataOk && this.textOk == textOk
      ensures Remaining() == Answer(db, whichData, 0, None, now, true)
    {
      this.db, this.dataOk, this.textOk := db, dataOk, textOk;
      startTimeOfGetData := now;
      dbCon, active, this.whichData := true, true, Some(whichData);
      iData, currentEndTime, endTime, isHourData, selects, released := 0, None, None, -1, 0, 0;
    }

    lemma {:induction false} EndReached()
      requires Valid() && whichData.Some? && iData == |whichData.value|
      ensures Remaining() == []
    {
    }

    ghost predicate DataSelectsWork() { forall k :: dataOk(k) }

    ghost predicate TextSelectsWork() { forall k :: textOk(k) }

    /** Where the next window starts: where the last one ended, or at the start of an entry, whose end is
        found first. */
    method StartWindow(w: WhichData) returns (valid: bool, stime: int)
      requires Valid() && dbCon && iData < |whichData.value| && w == whichData.value[iData]
      modifies `endTime
      ensures valid <==> currentEndTime.Some? || w.fromObsTime.At?
      ensures currentEndTime.Some? ==> stime == currentEndTime.value && endTime == old(endTime)
      ensures !valid ==> old(Remaining()) == [] && Valid() && Remaining() == []
      ensures valid ==>
                && endTime.Some?
                && old(Remaining()) == Owed(db, whichData.value, iData, Some(stime), endTime, startTimeOfGetData, true)
    {
      hide Answer, EntryRecords;
      stime, valid := 0, true;
      ghost var which, now := whichData.value, startTimeOfGetData;
      if currentEndTime.Some? {
        stime := currentEndTime.value;
        return;
      }
      if w.toObsTime != Empty {
        endTime := if w.toObsTime.At? then Some(w.toObsTime.time) else None;
      }
      if !w.fromObsTime.At? {
        OwedInvalid(db, which, iData, old(endTime), now, true);
        OwedInvalid(db, which, iData, endTime, now, true);
        valid := false;
        return;
      }
      stime := w.fromObsTime.time;
      if endTime.None? {
        endTime := Some(startTimeOfGetData);
      }
      OwedStart(db, which, iData, old(endTime), now, true);
    }

    /** The window's end, three or twelve hours on; behind the last window of an entry comes the next entry. */
    method EndWindow(w: WhichData, stime: int, end: int) returns (etime: int)
      requires db.Valid() && whichData.Some? && iData < |whichData.value| && w == whichData.value[iData]
      requires endTime == Some(end)
      modifies `iData, `currentEndTime, `isHourData
      ensures iData <= |whichData.value|
      ensures if currentEndTime.Some? then iData == old(iData) && stime < currentEndTime.value < end
              else iData == old(iData) + 1
      ensures isHourData == if currentEndTime.Some? then old(isHourData) else -2
      ensures Owed(db, whichData.value, old(iData), Some(stime), Some(end), startTimeOfGetData, true)
           == EntryRecords(db, w, stime, etime)
              + Owed(db, whichData.value, iData, currentEndTime, Some(end), startTimeOfGetData, true)
    {
      hide Answer, EntryRecords, Owed;
      ghost var which, now := whichData.value, startTimeOfGetData;
      var tmpTime := stime;
      if isHourData > 0 {
        tmpTime := tmpTime + 12 * HOUR;
      } else {
        tmpTime := tmpTime + 3 * HOUR;
      }
      if tmpTime < end {
        OwedCut(db, which, iData, stime, tmpTime, end, now, true);
        currentEndTime := Some(tmpTime);
        etime := tmpTime - 1;
      } else {
        OwedLast(db, which, iData, stime, end, now, true);
        currentEndTime := None;
        etime := end;
        iData := iData + 1;
        isHourData := -2;
      }
    }

    /** The first half of findData: chooses the window and moves the iterator past it. */
    method NextWindow(w: WhichData) returns (valid: bool, stime: int, etime: int)
      requires Valid() && dbCon && iData < |whichData.value| && w == whichData.value[iData]
      modifies `iData, `currentEndTime, `endTime, `isHourData
      ensures whichData.Some?
      ensures valid <==> old(currentEndTime).Some? || w.fromObsTime.At?
      ensures !valid ==> old(Remaining()) == [] && Valid() && Remaining() == []
      ensures !valid ==> unchanged(`iData, `currentEndTime, `isHourData)
      ensures valid ==> Advanced() && iData <= |whichData.value|
      ensures valid && currentEndTime.Some? ==>
                endTime.Some? && currentEndTime.value < endTime.value && iData < |whichData.value|
      ensures valid ==> isHourData == (if currentEndTime.Some? then old(isHourData) else -2)
      ensures valid ==> old(Remaining()) == EntryRecords(db, w, stime, etime)
                        + Owed(db, whichData.value, iData, currentEndTime, endTime, startTimeOfGetData, true)
    {
      hide Answer, EntryRecords, Owed;
      etime := 0;
      valid, stime := StartWindow(w);
      if valid {
        etime := EndWindow(w, stime, endTime.value);
      }
    }

    /** Selects the next window; the iterator has moved past it also when a select fails. */
    method FindData(w: WhichData) returns (r: Outcome, data: seq<Data>, textData: seq<TextData>)
      requires Valid() && dbCon && iData < |whichData.value| && w == whichData.value[iData]
      modifies this
      ensures Valid() && dbCon && active == old(active) && whichData == old(whichData)
      ensures r == InvalidWhichData <==> old(currentEndTime).None? && !w.fromObsTime.At?
      ensures r == InvalidWhichData ==> old(Remaining()) == [] == Remaining()
      ensures r == InvalidWhichData ==> unchanged(`iData, `currentEndTime, `isHourData)
      ensures r != InvalidWhichData ==> Advanced()
      ensures r == Found ==> TimeOrdered(data) && TimeOrdered(textData)
      ensures r == Found ==>
                Splits(old(Remaining()), Records(Passing(data, w.status), textData), Remaining(), TextSelectsWork())
      ensures r == Found && old(Settled()) ==> Settled()
      ensures r == SelectFailed ==> !DataSelectsWork()
    {
      hide Answer, EntryRecords, Owed, Records, Passing;
      ghost var owed := Remaining();
      data, textData := [], [];
      var valid, stime, etime := NextWindow(w);
      if !valid {
        r := InvalidWhichData;
        return;
      }
      if dataOk(selects) {
        data := Select(db.data, w.stationId, stime, etime);
        if isHourData == -1 {
          isHourData := 0;
          var hourly := IsHourDataCheck(data);
          if hourly {
            isHourData := 1;
          }
        }
        r := Found;
      } else {
        r := SelectFailed;
      }
      if isHourData < -1 {
        isHourData := -1;
      }
      if textOk(selects) {
        textData := Select(db.text, w.stationId, stime, etime);
      }
      selects := selects + 1;
      WindowSplits(db, w, stime, etime, textData, owed, Remaining(), TextSelectsWork());
    }

    /** The loop at the head of next: windows are fetched until one holds a row. */
    method FetchWindow() returns (found: bool, w: WhichData, dataList: seq<Data>, textDataList: seq<TextData>)
      requires Valid() && dbCon
      modifies this
      ensures Valid() && dbCon && active == old(active) && whichData == old(whichData)
      ensures found ==> Advanced() && TimeOrdered(dataList) && TimeOrdered(textDataList)
      ensures found ==>
                Splits(old(Remaining()), Records(Passing(dataList, w.status), textDataList), Remaining(),
                       TextSelectsWork())
      ensures !found && DataSelectsWork() ==> Splits(old(Remaining()), [], [], TextSelectsWork())
      ensures DataSelectsWork() && old(Settled()) ==> Settled()
    {
      found, w, dataList, textDataList := false, WhichData(0, All, Empty, Empty), [], [];
      ghost var owed, textOk := Remaining(), TextSelectsWork();
      assert Splits(owed, [], owed, textOk);
      NoRows();
      hide EntryRecords, Remaining, Splits, Records, DataOf, Passing, Tables.Valid, DataSelectsWork, TextSelectsWork;
      while true
        invariant Valid() && dbCon && active == old(active) && whichData == old(whichData)
        invariant Splits(owed, [], Remaining(), textOk)
        invariant Advanced() || unchanged(this)
        invariant DataSelectsWork() && old(Settled()) ==> Settled()
        decreases |whichData.value| - iData, currentEndTime.None?,
                  if currentEndTime.Some? then endTime.value - currentEndTime.value else 0
      {
        if iData >= |whichData.value| {
          EndReached();
          return;
        }
        w := whichData.value[iData];
        var r, data, text := NextRows(w, owed, textOk);
        if r != Found {
          return;
        }
        if data != [] || text != [] {
          found, dataList, textDataList := true, data, text;
          return;
        }
      }
    }

    /** One window: a part of what is owed, or the end. */
    method NextRows(w: WhichData, ghost owed: seq<ObsRecord>, ghost textOk: bool)
      returns (r: Outcome, data: seq<Data>, text: seq<TextData>)
      requires Valid() && dbCon && iData < |whichData.value| && w == whichData.value[iData]
      requires Splits(owed, [], Remaining(), textOk) && textOk == TextSelectsWork()
      modifies this
      ensures Valid() && dbCon && active == old(active) && whichData == old(whichData)
      ensures r == Found ==>
                && Advanced() && TimeOrdered(data) && TimeOrdered(text)
                && Splits(owed, Records(Passing(data, w.status), text), Remaining(), textOk)
      ensures r != Found && DataSelectsWork() ==> Splits(owed, [], [], textOk)
      ensures DataSelectsWork() && old(Settled()) ==> Settled()
    {
      hide EntryRecords, Remaining, Splits, Records, DataOf, Passing, Tables.Valid, TextSelectsWork;
      ghost var before := Remaining();
      r, data, text := FindData(w);
      if r == Found {
        SplitsFirst(owed, before, Records(Passing(data, w.status), text), Remaining(), textOk);
      }
    }

    /** The next records of the answer; false at its end, or when a select fails, or after a destroy. */
    method Next() returns (more: bool, obsDataList: seq<ObsRecord>)
      requires Valid()
      modifies this
      ensures Valid() && dbCon == old(dbCon) && active == old(active) && whichData == old(whichData)
      ensures !old(dbCon) || !old(active) ==> !more && unchanged(this)
      // a part of the answer in its order, with every data row even when a text select failed
      ensures more ==> Advanced() && Splits(old(Remaining()), obsDataList, Remaining(), TextSelectsWork())
      // and only the end of the answer stops it when the selects succeed
      ensures !more && old(dbCon) && old(active) && DataSelectsWork() ==> DataOf(old(Remaining())) == []
      ensures !more && old(dbCon) && old(active) && DataSelectsWork() && TextSelectsWork() ==> old(Remaining()) == []
      ensures DataSelectsWork() && old(Settled()) ==> Settled()
    {
      hide Answer, EntryRecords, Owed, Splits, Records, DataOf, Passing, Tables.Valid, DataSelectsWork, TextSelectsWork;
      more, obsDataList := false, [];
      if !dbCon || !active {
        return;
      }
      var w, dataList, textDataList;
      more, w, dataList, textDataList := FetchWindow();
      if more {
        obsDataList := BuildRecords(dataList, textDataList, w.status);
      } else if DataSelectsWork() {
        NothingOwed(old(Remaining()), TextSelectsWork());
      }
    }

    method Destroy()
      requires Valid()
      modifies this
      ensures Valid() && !dbCon && !active && whichData == old(whichData)
      ensures released == old(released) + if old(dbCon) then 1 else 0
    {
      if dbCon {
        ReleaseConnection();
      }
      active := false;
    }

    /** Called by the reaper after the iterator is deactivated. */
    method CleanUp()
      requires Valid()
      modifies this
      ensures Valid() && !dbCon && whichData.None? && active == old(active)
      ensures released == old(released) + if old(dbCon) then 1 else 0
    {
      if dbCon {
        ReleaseConnection();
      }
      whichData := None;
    }

    method ReleaseConnection()
      requires dbCon
      modifies `dbCon, `released
      ensures !dbCon && released == old(released) + 1
    {
      dbCon := false;
      released := released + 1;
    }
  }

  /** A client that calls next until it returns false. With working selects it receives exactly the
      answer to its request; a failing data select cuts the answer off, but what came is the start of it. */
  method Drain(it: DataIteratorImpl) returns (stream: seq<ObsRecord>, ghost rest: seq<ObsRecord>)
    requires it.Valid() && it.dbCon && it.active
    modifies it
    ensures Splits(old(it.Remaining()), stream, rest, it.TextSelectsWork())
    ensures it.DataSelectsWork() ==> DataOf(rest) == []
    ensures it.DataSelectsWork() && it.TextSelectsWork() ==> stream == old(it.Remaining())
  {
    stream := [];
    rest := it.Remaining();
    ghost var owed, textOk, dataOk := rest, it.TextSelectsWork(), it.DataSelectsWork();
    assert Splits(owed, stream, rest, textOk);
    hide Answer, EntryRecords, Owed, Splits, DataOf, Tables.Valid;
    var more := true;
    while more
      invariant it.Valid() && it.dbCon && it.active && it.whichData == old(it.whichData)
      invariant Splits(owed, stream, rest, textOk)
      invariant more ==> rest == it.Remaining()
      invariant !more && dataOk ==> DataOf(rest) == []
      invariant !more && dataOk && textOk ==> rest == []
      decreases more, |it.whichData.value| - it.iData, it.currentEndTime.None?,
                if it.currentEndTime.Some? then it.endTime.value - it.currentEndTime.value else 0
    {
      var obs;
      more, obs := it.Next();
      if more {
        SplitsOn(owed, stream, rest, obs, it.Remaining(), textOk);
        stream, rest := stream + obs, it.Remaining();
      }
    }
    if dataOk && textOk {
      NothingLeft(owed, stream);
    }
  }
}
