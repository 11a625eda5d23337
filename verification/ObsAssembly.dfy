/** How `next` turns the rows of one window into observation records: filter, group into lists that
    are allocated in steps and trimmed afterwards, then merge the text rows in one group at a time. */
module ObsAssembly {
  import opened ObsRecords

  const OBSLIST_DELTA := 12
  const DATALIST_DELTA := 20
  const TEXTDATALIST_DELTA := 10

  const EMPTY_RECORD := ObsRecord(0, [], [])
  const EMPTY_DATA := Row(0, 0, 0, 0, 0, Reading(0.0, 0, 0, 0.0, "", "", ""))
  const EMPTY_TEXT: TextData := Row(0, 0, 0, 0, 0, "")

  /** A CORBA sequence's length(n): cut off, or grown with default elements. */
  function Resize<T>(s: seq<T>, n: nat, filler: T): (r: seq<T>)
    ensures |r| == n
    ensures forall k | 0 <= k < n && k < |s| :: r[k] == s[k]
    ensures forall k | |s| <= k < n :: r[k] == filler
  {
    if n <= |s| then s[..n] else s + seq(n - |s|, _ => filler)
  }

  // ------------------------------------------------------------------------ filterData

  method FilterData(start: nat, dataList: seq<Data>, status: StatusId) returns (it: nat)
    requires start <= |dataList|
    ensures start <= it <= |dataList|
    ensures Passing(dataList[start..it], status) == []
    ensures it < |dataList| ==> Passes(status, dataList[it])
  {
    it := start;
    while it < |dataList|
      invariant start <= it <= |dataList|
      invariant forall k | start <= k < it :: !Passes(status, dataList[k])
    {
      if status == All {
        break;
      } else if status == OnlyOk && dataList[it].value.cfailed == "" {
        break;
      } else if status == OnlyFailed && dataList[it].value.cfailed != "" {
        break;
      }
      it := it + 1;
    }
    PassingNone(dataList[start..it], status);
  }

  /** Taking the row at `it` and moving on to `next` takes exactly one more row. */
  lemma {:induction false} PassingStep(d: seq<Data>, it: nat, next: nat, status: StatusId)
    requires it < next <= |d| && Passes(status, d[it]) && Passing(d[it + 1..next], status) == []
    ensures Passing(d[..next], status) == Passing(d[..it], status) + [d[it]]
  {
    assert d[..next] == d[..it] + ([d[it]] + d[it + 1..next]);
    PassingAppend(d[..it], [d[it]] + d[it + 1..next], status);
    PassingAppend([d[it]], d[it + 1..next], status);
  }

  // ---------------------------------------------------------------- grouping by time

  /** The records of f and one more row, for a row behind f's first group. */
  lemma {:induction false} AppendBehind(f: seq<Data>, x: Data)
    requires f != [] && TimeOrdered(f) && f[0].obstime < f[|f| - 1].obstime == x.obstime
    ensures var f' := Later(f, f[0].obstime); var head := Record(Now(f, f[0].obstime), []);
            && f' != [] && |f'| < |f| && TimeOrdered(f') && f'[|f'| - 1] == f[|f| - 1]
            && Records(f, []) == [head] + Records(f', [])
            && Records(f + [x], []) == [head] + Records(f' + [x], [])
  {
    var time := f[0].obstime;
    NowLater(f, time);
    assert Later(f, time) != [];
    LaterOrdered(f, time);
    CutAppend(f, [x], time);
  }

  /** The records with one more row: in the last record, or in a record of its own. */
  function RowAdded(r: seq<ObsRecord>, x: Data, sameTime: bool): seq<ObsRecord>
    requires r != []
  {
    if sameTime then r[..|r| - 1] + [r[|r| - 1].(dataList := r[|r| - 1].dataList + [x])]
    else r + [Record([x], [])]
  }

  /** One more row at the end either joins the last record or opens a new one. */
  lemma {:induction false} AppendRow(f: seq<Data>, x: Data)
    requires f != [] && TimeOrdered(f) && f[|f| - 1].obstime <= x.obstime
    ensures Records(f, []) != []
    ensures Records(f + [x], []) == RowAdded(Records(f, []), x, x.obstime == f[|f| - 1].obstime)
    decreases |f|
  {
    hide Later, TimeOrdered;
    if f[|f| - 1].obstime < x.obstime {
      AppendLater(f, x);
    } else if x.obstime == f[0].obstime {
      AppendFirst(f, x);
    } else {
      AppendedLast(f, x);
      AppendBehind(f, x);
      var f', head := Later(f, f[0].obstime), Record(Now(f, f[0].obstime), []);
      AppendRow(f', x);
      AddedBehind(head, Records(f', []), x);
    }
  }

  lemma {:induction false} AppendedLast(f: seq<Data>, x: Data)
    requires f != [] && TimeOrdered(f) && f[|f| - 1].obstime == x.obstime != f[0].obstime
    ensures f[0].obstime < x.obstime
  {
  }

  lemma {:induction false} AddedBehind(head: ObsRecord, r: seq<ObsRecord>, x: Data)
    requires r != []
    ensures RowAdded([head] + r, x, true) == [head] + RowAdded(r, x, true)
  {
  }

  lemma {:induction false} AppendLater(f: seq<Data>, x: Data)
    requires f != [] && TimeOrdered(f) && f[|f| - 1].obstime < x.obstime
    ensures Records(f, []) != [] && Records(f + [x], []) == Records(f, []) + [Record([x], [])]
  {
    RecordsSplit(f, [], [x], [], x.obstime);
    var none: seq<TextData> := [];
    assert none + none == none;
    SingleRow(x);
  }

  lemma {:induction false} AppendFirst(f: seq<Data>, x: Data)
    requires f != [] && TimeOrdered(f) && f[|f| - 1].obstime == x.obstime == f[0].obstime
    ensures Records(f, []) != [] && Records(f + [x], []) == RowAdded(Records(f, []), x, true)
  {
    AllNow(f, f[0].obstime);
    AllNow(f + [x], f[0].obstime);
  }

  lemma {:induction false} SingleRow(x: Data)
    ensures Records([x], []) == [Record([x], [])]
  {
    AllNow([x], x.obstime);
  }

  lemma {:induction false} AllNow<V>(s: seq<Row<V>>, time: int)
    requires forall k | 0 <= k < |s| :: s[k].obstime == time
    ensures Now(s, time) == s && Later(s, time) == []
  {
    if s != [] {
      AllNow(s[1..], time);
    }
  }

  /** What the half-built list holds: records before `obsi` are finished, the one at `obsi` has `datai` rows. */
  function Built(obs: seq<ObsRecord>, obsi: nat, datai: nat): seq<ObsRecord>
    requires obsi < |obs| && datai <= |obs[obsi].dataList|
  {
    obs[..obsi] + [obs[obsi].(dataList := obs[obsi].dataList[..datai])]
  }

  /** The list under construction after the rows `f`: it holds exactly their records, and everything
      beyond the open one is untouched filler. */
  ghost predicate Holds(obs: seq<ObsRecord>, obsi: nat, datai: nat, f: seq<Data>) {
    && f != [] && obsi < |obs| && 0 < datai <= |obs[obsi].dataList|
    && (forall k | obsi < k < |obs| :: obs[k] == EMPTY_RECORD)
    && Built(obs, obsi, datai) == Records(f, [])
  }

  /** Room for the first rows, with the station of the first record set. */
  ghost predicate Ready(obs: seq<ObsRecord>, station: int) {
    && obs != [] && obs[0] == ObsRecord(station, [], [])
    && forall k | 0 < k < |obs| :: obs[k] == EMPTY_RECORD
  }

  /** Closes the open record at a new time and opens the next one, growing the list when it is full. */
  method OpenRecord(list: seq<ObsRecord>, i: nat, datai: nat, station: int, ghost f: seq<Data>)
    returns (obs: seq<ObsRecord>, obsi: nat)
    requires Holds(list, i, datai, f)
    ensures obsi == i + 1 < |obs| && obs[..obsi] == Records(f, [])
    ensures obs[obsi] == ObsRecord(station, [], [])
    ensures forall k | obsi < k < |obs| :: obs[k] == EMPTY_RECORD
  {
    obs := list[i := list[i].(dataList := Resize(list[i].dataList, datai, EMPTY_DATA))];
    obsi := i + 1;
    if obsi >= |obs| {
      obs := Resize(obs, |obs| + OBSLIST_DELTA, EMPTY_RECORD);
    }
    obs := obs[obsi := obs[obsi].(stationId := station)];
    assert obs[..obsi] == Built(list, i, datai);
  }

  /** Writes a row into the open record, growing its data list when it is full. */
  method PutRow(list: seq<ObsRecord>, obsi: nat, datai: nat, row: Data) returns (obs: seq<ObsRecord>)
    requires obsi < |list| && datai <= |list[obsi].dataList|
    ensures |obs| == |list| && obs[..obsi] == list[..obsi] && obs[obsi + 1..] == list[obsi + 1..]
    ensures obs[obsi].(dataList := []) == list[obsi].(dataList := []) && datai < |obs[obsi].dataList|
    ensures obs[obsi].dataList[..datai + 1] == list[obsi].dataList[..datai] + [row]
  {
    obs := list;
    if |obs[obsi].dataList| <= datai {
      var longer := Resize(obs[obsi].dataList, |obs[obsi].dataList| + DATALIST_DELTA, EMPTY_DATA);
      obs := obs[obsi := obs[obsi].(dataList := longer)];
    }
    obs := obs[obsi := obs[obsi].(dataList := obs[obsi].dataList[datai := row])];
  }

  lemma {:induction false} PutFirst(list: seq<ObsRecord>, obs: seq<ObsRecord>, row: Data)
    requires Ready(list, row.stationId) && |obs| == |list| && obs[1..] == list[1..]
    requires obs[0].(dataList := []) == list[0] && obs[0].dataList != [] && obs[0].dataList[..1] == [row]
    ensures Holds(obs, 0, 1, [row])
  {
    SingleRow(row);
    forall k | 0 < k < |obs| ensures obs[k] == EMPTY_RECORD {
      assert obs[k] == obs[1..][k - 1];
    }
  }

  lemma {:induction false} PutSameTime(list: seq<ObsRecord>, obs: seq<ObsRecord>, i: nat, n: nat, f: seq<Data>,
                                       row: Data)
    requires Holds(list, i, n, f) && TimeOrdered(f) && f[|f| - 1].obstime == row.obstime
    requires |obs| == |list| && obs[..i] == list[..i] && obs[i + 1..] == list[i + 1..]
    requires obs[i].(dataList := []) == list[i].(dataList := []) && n < |obs[i].dataList|
    requires obs[i].dataList[..n + 1] == list[i].dataList[..n] + [row]
    ensures Holds(obs, i, n + 1, f + [row])
  {
    AppendRow(f, row);
    var r := Built(list, i, n);
    assert r[..|r| - 1] == list[..i] && r[|r| - 1] == list[i].(dataList := list[i].dataList[..n]);
    forall k | i < k < |obs| ensures obs[k] == EMPTY_RECORD {
      assert obs[k] == obs[i + 1..][k - i - 1] == list[k];
    }
  }

  lemma {:induction false} PutNewTime(list: seq<ObsRecord>, obs: seq<ObsRecord>, i: nat, f: seq<Data>, row: Data)
    requires f != [] && TimeOrdered(f) && f[|f| - 1].obstime < row.obstime
    requires i < |list| && list[..i] == Records(f, []) && list[i] == ObsRecord(row.stationId, [], [])
    requires forall k | i < k < |list| :: list[k] == EMPTY_RECORD
    requires |obs| == |list| && obs[..i] == list[..i] && obs[i + 1..] == list[i + 1..]
    requires obs[i].(dataList := []) == list[i] && 0 < |obs[i].dataList| && obs[i].dataList[..1] == [row]
    ensures Holds(obs, i, 1, f + [row])
  {
    AppendRow(f, row);
    forall k | i < k < |obs| ensures obs[k] == EMPTY_RECORD {
      assert obs[k] == obs[i + 1..][k - i - 1] == list[k];
    }
  }

  /** One round of the grouping loop. */
  method AddRow(list: seq<ObsRecord>, i: nat, n: nat, thisTime: int, row: Data, ghost f: seq<Data>)
    returns (obs: seq<ObsRecord>, obsi: nat, datai: nat)
    requires f == [] ==> i == 0 == n && Ready(list, row.stationId) && thisTime == row.obstime
    requires f != [] ==> TimeOrdered(f) && f[|f| - 1].obstime == thisTime <= row.obstime && Holds(list, i, n, f)
    ensures Holds(obs, obsi, datai, f + [row])
  {
    obs, obsi, datai := list, i, n;
    if row.obstime != thisTime {
      obs, obsi := OpenRecord(obs, obsi, datai, row.stationId, f);
      datai := 0;
    }
    ghost var room := obs;
    obs := PutRow(obs, obsi, datai, row);
    if f == [] {
      PutFirst(room, obs, row);
      assert f + [row] == [row];
    } else if datai == 0 {
      PutNewTime(room, obs, obsi, f, row);
    } else {
      PutSameTime(room, obs, obsi, datai, f, row);
    }
    datai := datai + 1;
  }

  /** The record list for the data rows of one window. */
  method GroupData(dataList: seq<Data>, status: StatusId) returns (obs: seq<ObsRecord>)
    requires TimeOrdered(dataList)
    ensures obs == Records(Passing(dataList, status), [])
  {
    hide Holds, Ready, Records, TimeOrdered, Built;
    obs := [];
    var it := FilterData(0, dataList, status);
    var thisTime := 0;
    if it < |dataList| {
      obs := Resize(obs, OBSLIST_DELTA, EMPTY_RECORD);
      thisTime := dataList[it].obstime;
      obs := obs[0 := obs[0].(stationId := dataList[it].stationId)];
      FirstReady(obs, dataList[it].stationId);
    }
    var obsi: nat, datai: nat := 0, 0;
    ghost var f := Passing(dataList[..it], status);
    while it < |dataList|
      invariant it <= |dataList| && (it < |dataList| ==> Passes(status, dataList[it]))
      invariant f == Passing(dataList[..it], status)
      invariant f == [] ==> datai == 0 == obsi
      invariant f == [] ==> if it < |dataList|
                            then Ready(obs, dataList[it].stationId) && thisTime == dataList[it].obstime
                            else obs == []
      invariant f != [] ==> f[|f| - 1].obstime == thisTime && Holds(obs, obsi, datai, f)
    {
      var row := dataList[it];
      PassingLast(dataList, it, status);
      obs, obsi, datai := AddRow(obs, obsi, datai, thisTime, row, f);
      thisTime := row.obstime;
      var next := FilterData(it + 1, dataList, status);
      PassingStep(dataList, it, next, status);
      f := f + [row];
      HoldsMeans(obs, obsi, datai, f);
      it := next;
    }
    assert dataList[..it] == dataList;
    NoRecords();
    if f != [] {
      HoldsMeans(obs, obsi, datai, f);
    }
    if datai > 0 {
      Trimmed(obs, obsi, datai, f);
      obs := obs[obsi := obs[obsi].(dataList := Resize(obs[obsi].dataList, datai, EMPTY_DATA))];
      obs := Resize(obs, obsi + 1, EMPTY_RECORD);
    }
  }

  lemma {:induction false} FirstReady(obs: seq<ObsRecord>, station: int)
    requires obs != [] && obs[0] == EMPTY_RECORD.(stationId := station)
    requires forall k | 0 < k < |obs| :: obs[k] == EMPTY_RECORD
    ensures Ready(obs, station)
  {
  }

  lemma {:induction false} NoRecords()
    ensures Records([], []) == []
  {
  }

  lemma {:induction false} HoldsMeans(obs: seq<ObsRecord>, obsi: nat, datai: nat, f: seq<Data>)
    requires Holds(obs, obsi, datai, f)
    ensures f != [] && obsi < |obs| && 0 < datai <= |obs[obsi].dataList|
  {
  }

  /** Cut to what they hold, the over-allocated lists are the records. */
  lemma {:induction false} Trimmed(obs: seq<ObsRecord>, obsi: nat, datai: nat, f: seq<Data>)
    requires Holds(obs, obsi, datai, f)
    ensures var cut := obs[obsi := obs[obsi].(dataList := Resize(obs[obsi].dataList, datai, EMPTY_DATA))];
            Resize(cut, obsi + 1, EMPTY_RECORD) == Records(f, [])
  {
  }

  lemma {:induction false} PassingLast(d: seq<Data>, it: nat, status: StatusId)
    requires TimeOrdered(d) && it < |d|
    ensures var f := Passing(d[..it], status); TimeOrdered(f) && (f != [] ==> f[|f| - 1].obstime <= d[it].obstime)
  {
    PassingOrdered(d[..it], status);
    PassingMembers(d[..it], status);
    var f := Passing(d[..it], status);
    if f != [] {
      assert f[|f| - 1] in f;
      var j :| 0 <= j < |d[..it]| && d[..it][j] == f[|f| - 1];
    }
  }

  // ---------------------------------------------------------------------- text rows

  /** What insertTextData does to the list: a group of text rows joins the first record whose data is
      not earlier if the times agree, else it becomes a record of its own in front of that one. */
  function InsertText(r: seq<ObsRecord>, g: seq<TextData>): seq<ObsRecord>
    requires g != []
  {
    if r == [] then [ObsRecord(g[0].stationId, [], g)]
    else if r[0].dataList == [] || r[0].dataList[0].obstime < g[0].obstime then [r[0]] + InsertText(r[1..], g)
    else if r[0].dataList[0].obstime == g[0].obstime then [r[0].(textDataList := g)] + r[1..]
    else [ObsRecord(g[0].stationId, [], g)] + r
  }

  /** The place InsertText stops at. */
  predicate StopsAt(r: seq<ObsRecord>, i: nat, time: int)
    requires i <= |r|
  {
    && (forall k | 0 <= k < i :: r[k].dataList == [] || r[k].dataList[0].obstime < time)
    && (i < |r| ==> r[i].dataList != [] && time <= r[i].dataList[0].obstime)
  }

  lemma {:induction false} InsertTextAt(r: seq<ObsRecord>, i: nat, g: seq<TextData>)
    requires g != [] && i <= |r| && StopsAt(r, i, g[0].obstime)
    ensures InsertText(r, g)
         == if i < |r| && r[i].dataList[0].obstime == g[0].obstime
            then r[i := r[i].(textDataList := g)]
            else r[..i] + [ObsRecord(g[0].stationId, [], g)] + r[i..]
  {
    if 0 < i {
      InsertTextAt(r[1..], i - 1, g);
    }
  }

  method InsertTextData(obsDataList: seq<ObsRecord>, textData: seq<TextData>) returns (obs: seq<ObsRecord>)
    ensures textData == [] ==> obs == obsDataList
    ensures textData != [] ==> obs == InsertText(obsDataList, textData)
  {
    hide InsertText;
    obs := obsDataList;
    if |textData| == 0 {
      return;
    }
    var textTime := textData[0].obstime;
    var obsTime, defined := 0, false;  // not_a_date_time until a record with data is seen
    var i := 0;
    while i < |obs|
      invariant 0 <= i <= |obs| && StopsAt(obs[..i], i, textTime)
      invariant defined ==> obsTime < textTime
    {
      if |obs[i].dataList| != 0 {
        obsTime, defined := obs[i].dataList[0].obstime, true;
        if obsTime >= textTime {
          break;
        }
      }
      i := i + 1;
    }
    assert StopsAt(obs, i, textTime);
    InsertTextAt(obs, i, textData);
    if defined && obsTime == textTime {
      obs := obs[i := obs[i].(textDataList := textData)];
      return;
    }
    obs := Resize(obs, |obs| + 1, EMPTY_RECORD);
    var idx := |obs| - 1;
    while idx > i
      invariant i <= idx < |obs| == |obsDataList| + 1
      invariant forall k | 0 <= k < idx :: obs[k] == obsDataList[k]
      invariant forall k | idx < k < |obs| :: obs[k] == obsDataList[k - 1]
    {
      obs := obs[idx := obs[idx - 1]];
      idx := idx - 1;
    }
    obs := obs[i := ObsRecord(textData[0].stationId, [], textData)];
  }

  /** Inserting a later group of text rows gives the merge of the data with all the text so far. */
  lemma {:induction false} InsertRecords(d: seq<Data>, t: seq<TextData>, g: seq<TextData>)
    requires TimeOrdered(d) && TimeOrdered(t) && g != []
    requires forall k | 0 <= k < |g| :: g[k].obstime == g[0].obstime
    requires AllBefore(t, g[0].obstime)
    ensures InsertText(Records(d, t), g) == Records(d, t + g)
    decreases |d| + |t|
  {
    var textTime := g[0].obstime;
    AllNow(g, textTime);
    if d == [] && t == [] {
      assert t + g == g;
    } else {
      var time := FirstTime(d, t);
      if time < textTime {
        InsertLater(d, t, g);
        FirstTimeBounds(d, t);
        LaterOrdered(d, time);
        LaterOrdered(t, time);
        LaterBefore(t, time, textTime);
        InsertRecords(Later(d, time), Later(t, time), g);
        assert Records(d, t)[0].dataList == Now(d, time);
      } else {
        assert t == [] && t + g == g;
        NowOther(d, g, textTime);
      }
    }
  }

  lemma {:induction false} InsertLater(d: seq<Data>, t: seq<TextData>, g: seq<TextData>)
    requires g != [] && (d != [] || t != [])
    requires FirstTime(d, t) < g[0].obstime
    ensures var time := FirstTime(d, t);
            Records(d, t + g) == [Record(Now(d, time), Now(t, time))] + Records(Later(d, time), Later(t, time) + g)
  {
    var time := FirstTime(d, t);
    CutAppend(t, g, time);
    if t == [] {
      assert t + g == g;
    } else {
      assert (t + g)[0] == t[0];
    }
    assert FirstTime(d, t + g) == time;
  }

  lemma {:induction false} NowOther(d: seq<Data>, g: seq<TextData>, textTime: int)
    requires g != [] && d != [] && textTime == g[0].obstime <= d[0].obstime && Now(g, textTime) == g
    requires Later(g, textTime) == []
    ensures Records(d, g) == if d[0].obstime == textTime
                             then [Record(Now(d, textTime), g)] + Records(Later(d, textTime), [])
                             else [Record([], g)] + Records(d, [])
  {
  }

  /** The open group: rows `done` up to `tit`, all of one time, later than everything merged so far. */
  ghost predicate OpenGroup(textData: seq<TextData>, datai: nat, t: seq<TextData>, done: nat, tit: nat, thisTime: int) {
    && done <= tit <= |t| && datai <= |textData| && textData[..datai] == t[done..tit]
    && (forall k | done <= k < tit :: t[k].obstime == thisTime)
    && AllBefore(t[..done], thisTime)
  }

  method PutText(list: seq<TextData>, datai: nat, row: TextData) returns (textData: seq<TextData>)
    requires datai <= |list|
    ensures datai < |textData| && textData[..datai + 1] == list[..datai] + [row]
  {
    textData := list;
    if |textData| <= datai {
      textData := Resize(textData, |textData| + TEXTDATALIST_DELTA, EMPTY_TEXT);
    }
    textData := textData[datai := row];
  }

  /** The text rows of the window merged into the record list, one group of equal times after another. */
  method MergeText(obsDataList: seq<ObsRecord>, ghost d: seq<Data>, textDataList: seq<TextData>)
    returns (obs: seq<ObsRecord>)
    requires TimeOrdered(d) && TimeOrdered(textDataList) && obsDataList == Records(d, [])
    ensures obs == Records(d, textDataList)
  {
    hide Records;
    obs := obsDataList;
    if |textDataList| == 0 {
      return;
    }
    var thisTime := textDataList[0].obstime;
    var datai := 0;
    var textData: seq<TextData> := [];
    ghost var done := 0;  // text rows already merged
    var tit := 0;
    while tit < |textDataList|
      invariant OpenGroup(textData, datai, textDataList, done, tit, thisTime)
      invariant if tit == 0 then textDataList[0].obstime == thisTime else done < tit
      invariant obs == Records(d, textDataList[..done])
    {
      if textDataList[tit].obstime != thisTime {
        assert textDataList[tit - 1].obstime == thisTime;
        obs := Flush(obs, textData, datai, d, textDataList, done, tit, thisTime);
        thisTime := textDataList[tit].obstime;
        datai := 0;
        done := tit;
      }
      textData := PutText(textData, datai, textDataList[tit]);
      assert textDataList[done..tit + 1] == textDataList[done..tit] + [textDataList[tit]];
      tit := tit + 1;
      datai := datai + 1;
    }
    assert textDataList[..tit] == textDataList;
    obs := Flush(obs, textData, datai, d, textDataList, done, tit, thisTime);
  }

  /** Trims the group's list to the rows written and inserts it. */
  method Flush(list: seq<ObsRecord>, group: seq<TextData>, datai: nat, ghost d: seq<Data>,
               ghost t: seq<TextData>, ghost done: nat, ghost tit: nat, ghost thisTime: int)
    returns (obs: seq<ObsRecord>)
    requires TimeOrdered(d) && TimeOrdered(t)
    requires OpenGroup(group, datai, t, done, tit, thisTime) && done < tit && list == Records(d, t[..done])
    ensures obs == Records(d, t[..tit])
  {
    var textData := Resize(group, datai, EMPTY_TEXT);
    assert textData == t[done..tit];
    FlushGroup(d, t, done, tit);
    obs := InsertTextData(list, textData);
  }

  lemma {:induction false} FlushGroup(d: seq<Data>, t: seq<TextData>, done: nat, tit: nat)
    requires TimeOrdered(d) && TimeOrdered(t) && done < tit <= |t|
    requires forall k | done <= k < tit :: t[k].obstime == t[done].obstime
    requires AllBefore(t[..done], t[done].obstime)
    ensures InsertText(Records(d, t[..done]), t[done..tit]) == Records(d, t[..tit])
  {
    InsertRecords(d, t[..done], t[done..tit]);
    assert t[..done] + t[done..tit] == t[..tit];
  }

  /** The record list `next` builds from the rows of one window. */
  method BuildRecords(dataList: seq<Data>, textDataList: seq<TextData>, status: StatusId) returns (obs: seq<ObsRecord>)
    requires TimeOrdered(dataList) && TimeOrdered(textDataList)
    ensures obs == Records(Passing(dataList, status), textDataList)
  {
    obs := GroupData(dataList, status);
    PassingOrdered(dataList, status);
    obs := MergeText(obs, Passing(dataList, status), textDataList);
  }
}
