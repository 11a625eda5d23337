/** The data iterator of kvServiced2, the simple form: every window is twelve hours, and an entry's end
    time is always its own. */
module FixedDataIterator {
  import opened ObsRecords
  import opened ObsAssembly
  import opened Requests
  import opened Windows

  class DataIteratorImpl {
    const db: Tables
    const dataOk: nat -> bool
    const textOk: nat -> bool
    const startTimeOfGetData: int
    const whichData: seq<WhichData>

    var iData: nat
    var currentEndTime: Option<int>
    var endTime: Option<int>
    var selects: nat

    ghost predicate Valid()
      reads this
    {
      && db.Valid() && iData <= |whichData|
      && (currentEndTime.Some? ==> iData < |whichData| && endTime.Some? && currentEndTime.value < endTime.value)
    }

    ghost function Remaining(): seq<ObsRecord>
      reads this
    {
      Owed(db, whichData, iData, currentEndTime, endTime, startTimeOfGetData, false)
    }

    twostate predicate Advanced()
      reads this
    {
      || old(iData) < iData
      || (old(iData) == iData && old(currentEndTime).None? && currentEndTime.Some?)
      || (old(iData) == iData && old(currentEndTime).Some? && currentEndTime.Some?
          && old(currentEndTime).value < currentEndTime.value && endTime == old(endTime))
    }

    ghost predicate DataSelectsWork() { forall k :: dataOk(k) }

    ghost predicate TextSelectsWork() { forall k :: textOk(k) }

    constructor (db: Tables, whichData: seq<WhichData>, now: int, dataOk: nat -> bool, textOk: nat -> bool)
      requires db.Valid()
      ensures Valid() && this.dataOk == dataOk && this.textOk == textOk
      ensures Remaining() == Answer(db, whichData, 0, None, now, false)
    {
      this.db, this.dataOk, this.textOk, this.whichData := db, dataOk, textOk, whichData;
      startTimeOfGetData := now;
      iData, currentEndTime, endTime, selects := 0, None, None, 0;
    }

    lemma {:induction false} EndReached()
      requires Valid() && iData == |whichData|
      ensures Remaining() == []
    {
    }

    /** The first half of findData: chooses the window and moves the iterator past it. */
    method NextWindow(w: WhichData) returns (valid: bool, stime: int, etime: int)
      requires Valid() && iData < |whichData| && w == whichData[iData]
      modifies `iData, `currentEndTime, `endTime
      ensures Valid()
      ensures valid <==> old(currentEndTime).Some? || w.fromObsTime.At?
      ensures !valid ==> old(Remaining()) == [] == Remaining()
      ensures valid ==> Advanced() && old(Remaining()) == EntryRecords(db, w, stime, etime) + Remaining()
    {
      hide Answer, EntryRecords;
      stime, etime := 0, 0;
      valid := true;
      ghost var now, owed := startTimeOfGetData, Remaining();
      if currentEndTime.None? {
        endTime := if w.toObsTime.At? then Some(w.toObsTime.time) else None;
        if !w.fromObsTime.At? {
          OwedInvalid(db, whichData, iData, old(endTime), now, false);
          OwedInvalid(db, whichData, iData, endTime, now, false);
          valid := false;
          return;
        }
        stime := w.fromObsTime.time;
        if endTime.None? {
          endTime := Some(startTimeOfGetData);
        }
        OwedStart(db, whichData, iData, old(endTime), now, false);
      } else {
        stime := currentEndTime.value;
      }
      var end := endTime.value;
      assert owed == Owed(db, whichData, iData, Some(stime), Some(end), now, false);

      var tmpTime := stime + 12 * HOUR;
      ghost var rest;
      if tmpTime < end {
        OwedCut(db, whichData, iData, stime, tmpTime, end, now, false);
        rest := Owed(db, whichData, iData, Some(tmpTime), Some(end), now, false);
        currentEndTime := Some(tmpTime);
        etime := tmpTime - 1;
      } else {
        OwedLast(db, whichData, iData, stime, end, now, false);
        rest := Owed(db, whichData, iData + 1, None, Some(end), now, false);
        currentEndTime := None;
        etime := end;
        iData := iData + 1;
      }
      assert rest == Remaining();
    }

    method FindData(w: WhichData) returns (r: Outcome, data: seq<Data>, textData: seq<TextData>)
      requires Valid() && iData < |whichData| && w == whichData[iData]
      modifies this
      ensures Valid()
      ensures r == InvalidWhichData ==> old(Remaining()) == [] == Remaining()
      ensures r != InvalidWhichData ==> Advanced()
      ensures r == Found ==> TimeOrdered(data) && TimeOrdered(textData)
      ensures r == Found ==>
                Splits(old(Remaining()), Records(Passing(data, w.status), textData), Remaining(), TextSelectsWork())
      ensures r == SelectFailed ==> !DataSelectsWork()
    {
      hide Answer, EntryRecords, Owed, Records, Passing;
      ghost var owed := Remaining();
      data, textData := [], [];
      var valid, stime, etime := NextWindow(w);
      if !valid {
        r := InvalidWhichData;
        return;
      }
      if dataOk(selects) {
        data := Select(db.data, w.stationId, stime, etime);
        r := Found;
      } else {
        r := SelectFailed;
      }
      if textOk(selects) {
        textData := Select(db.text, w.stationId, stime, etime);
      }
      selects := selects + 1;
      WindowSplits(db, w, stime, etime, textData, owed, Remaining(), TextSelectsWork());
    }

    method Next() returns (more: bool, obsDataList: seq<ObsRecord>)
      requires Valid()
      modifies this
      ensures Valid()
      ensures more ==> Advanced() && Splits(old(Remaining()), obsDataList, Remaining(), TextSelectsWork())
      ensures !more && DataSelectsWork() ==> DataOf(old(Remaining())) == []
      ensures !more && DataSelectsWork() && TextSelectsWork() ==> old(Remaining()) == []
    {
      more, obsDataList := false, [];
      ghost var owed, textOk := Remaining(), TextSelectsWork();
      assert Splits(owed, [], owed, textOk);
      NoRows();
      hide EntryRecords, Remaining, Splits, Records, DataOf, Passing, Tables.Valid, DataSelectsWork, TextSelectsWork;
      while true
        invariant Valid()
        invariant Splits(owed, [], Remaining(), textOk)
        invariant Advanced() || unchanged(this)
        decreases |whichData| - iData, currentEndTime.None?,
                  if currentEndTime.Some? then endTime.value - currentEndTime.value else 0
      {
        if iData >= |whichData| {
          EndReached();
          NothingOwed(owed, textOk);
          return;
        }
        ghost var before := Remaining();
        var w := whichData[iData];
        var r, data, text := FindData(w);
        if r != Found {
          if r == InvalidWhichData { NothingOwed(owed, textOk); }
          return;
        }
        SplitsFirst(owed, before, Records(Passing(data, w.status), text), Remaining(), textOk);
        if data != [] || text != [] {
          obsDataList := BuildRecords(data, text, w.status);
          more := true;
          return;
        }
      }
    }
  }

  /** The client's loop; what it receives is the answer with each entry's own end time. */
  method Drain(it: DataIteratorImpl) returns (stream: seq<ObsRecord>, ghost rest: seq<ObsRecord>)
    requires it.Valid()
    modifies it
    ensures Splits(old(it.Remaining()), stream, rest, it.TextSelectsWork())
    ensures it.DataSelectsWork() ==> DataOf(rest) == []
    ensures it.DataSelectsWork() && it.TextSelectsWork() ==> stream == old(it.Remaining())
  {
    stream := [];
    rest := it.Remaining();
    ghost var owed, textOk, dataOk := rest, it.TextSelectsWork(), it.DataSelectsWork();
    assert Splits(owed, stream, rest, textOk);
    hide Answer, EntryRecords, Owed, Splits, DataOf, Tables.Valid;
    var more := true;
    while more
      invariant it.Valid() && Splits(owed, stream, rest, textOk)
      invariant more ==> rest == it.Remaining()
      invariant !more && dataOk ==> DataOf(rest) == []
      invariant !more && dataOk && textOk ==> rest == []
      decreases more, |it.whichData| - it.iData, it.currentEndTime.None?,
                if it.currentEndTime.Some? then it.endTime.value - it.currentEndTime.value else 0
    {
      var obs;
      more, obs := it.Next();
      if more {
        SplitsOn(owed, stream, rest, obs, it.Remaining(), textOk);
        stream, rest := stream + obs, it.Remaining();
      }
    }
    if dataOk && textOk {
      NothingLeft(owed, stream);
    }
  }
}
