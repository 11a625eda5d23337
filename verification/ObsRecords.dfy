/** The rows of the data and text tables, and the list of observation records a client
    receives for them: one record per distinct observation time, in time order. */
module ObsRecords {

  /** What the data and the text table have in common. Times are whole seconds. */
  datatype Row<+V> = Row(stationId: int, obstime: int, tbtime: int, typeId: int, paramId: int, value: V)

  datatype Reading = Reading(original: real, sensor: int, level: int, corrected: real,
                             controlinfo: string, useinfo: string, cfailed: string)

  type Data = Row<Reading>
  type TextData = Row<string>

  datatype StatusId = All | OnlyFailed | OnlyOk

  datatype ObsRecord = ObsRecord(stationId: int, dataList: seq<Data>, textDataList: seq<TextData>)
  {
    function Time(): int {
      if dataList != [] then dataList[0].obstime else if textDataList != [] then textDataList[0].obstime else 0
    }

    /** The record holds something, and all its rows carry the record's time. */
    ghost predicate OneTime() {
      && (dataList != [] || textDataList != [])
      && (forall k | 0 <= k < |dataList| :: dataList[k].obstime == Time())
      && (forall k | 0 <= k < |textDataList| :: textDataList[k].obstime == Time())
      && this == Record(dataList, textDataList)
    }
  }

  ghost predicate TimeOrdered<V>(s: seq<Row<V>>) {
    forall i, j | 0 <= i < j < |s| :: s[i].obstime <= s[j].obstime
  }

  ghost predicate AllBefore<V>(s: seq<Row<V>>, t: int) {
    forall i | 0 <= i < |s| :: s[i].obstime < t
  }

  ghost predicate AllFrom<V>(s: seq<Row<V>>, t: int) {
    forall i | 0 <= i < |s| :: t <= s[i].obstime
  }

  /** The leading rows of time t ... */
  function Now<V>(s: seq<Row<V>>, t: int): (r: seq<Row<V>>)
    ensures forall k | 0 <= k < |r| :: r[k].obstime == t
  {
    if s == [] || s[0].obstime != t then [] else [s[0]] + Now(s[1..], t)
  }

  /** ... and what follows them. */
  function Later<V>(s: seq<Row<V>>, t: int): (r: seq<Row<V>>)
    ensures |r| <= |s|
    ensures s != [] && s[0].obstime == t ==> |r| < |s|
    ensures r != [] ==> r[0].obstime != t
  {
    if s == [] || s[0].obstime != t then s else Later(s[1..], t)
  }

  lemma {:induction false} NowLater<V>(s: seq<Row<V>>, t: int)
    ensures Now(s, t) + Later(s, t) == s
  {
    if s != [] {
      NowLater(s[1..], t);
    }
  }

  function FirstTime(d: seq<Data>, t: seq<TextData>): (time: int)
    requires d != [] || t != []
    ensures d != [] ==> time <= d[0].obstime
    ensures t != [] ==> time <= t[0].obstime
    ensures (d != [] && time == d[0].obstime) || (t != [] && time == t[0].obstime)
  {
    if d == [] then t[0].obstime
    else if t == [] then d[0].obstime
    else if d[0].obstime <= t[0].obstime then d[0].obstime else t[0].obstime
  }

  /** The record for the leading rows of time `time`. A record with data takes its station from
      the data, one with text only takes it from the text. */
  function Record(d: seq<Data>, t: seq<TextData>): ObsRecord
    requires d != [] || t != []
  {
    ObsRecord(if d != [] then d[0].stationId else t[0].stationId, d, t)
  }

  /** The reference definition: the two time-ordered row lists, merged and cut at every new time. */
  function Records(d: seq<Data>, t: seq<TextData>): seq<ObsRecord>
    decreases |d| + |t|
  {
    if d == [] && t == [] then []
    else
      var time := FirstTime(d, t);
      [Record(Now(d, time), Now(t, time))] + Records(Later(d, time), Later(t, time))
  }

  function DataOf(r: seq<ObsRecord>): seq<Data> {
    if r == [] then [] else r[0].dataList + DataOf(r[1..])
  }

  function TextOf(r: seq<ObsRecord>): seq<TextData> {
    if r == [] then [] else r[0].textDataList + TextOf(r[1..])
  }

  /** A well-formed record list: every record has rows of one time only, and the times increase strictly. */
  ghost predicate WellFormed(r: seq<ObsRecord>) {
    r == [] || (r[0].OneTime() && (|r| > 1 ==> r[0].Time() < r[1].Time()) && WellFormed(r[1..]))
  }

  // ---------------------------------------------------------------- what Records means

  lemma {:induction false} AppendData(a: seq<ObsRecord>, b: seq<ObsRecord>)
    ensures DataOf(a + b) == DataOf(a) + DataOf(b)
    ensures TextOf(a + b) == TextOf(a) + TextOf(b)
  {
    if a == [] {
      assert a + b == b;
    } else {
      assert (a + b)[1..] == a[1..] + b;
      AppendData(a[1..], b);
    }
  }

  /** Cutting off the rows of the first time leaves later rows only. */
  lemma {:induction false} LaterOrdered<V>(s: seq<Row<V>>, time: int)
    requires TimeOrdered(s) && AllFrom(s, time)
    ensures TimeOrdered(Later(s, time)) && AllFrom(Later(s, time), time + 1)
  {
    if s != [] && s[0].obstime == time {
      LaterOrdered(s[1..], time);
    }
  }

  lemma {:induction false} FirstTimeBounds(d: seq<Data>, t: seq<TextData>)
    requires TimeOrdered(d) && TimeOrdered(t)
    requires d != [] || t != []
    ensures AllFrom(d, FirstTime(d, t)) && AllFrom(t, FirstTime(d, t))
  {
  }

  lemma {:induction false} WellFormedMeans(r: seq<ObsRecord>)
    ensures WellFormed(r) <==>
            && (forall i | 0 <= i < |r| :: r[i].OneTime())
            && (forall i, j | 0 <= i < j < |r| :: r[i].Time() < r[j].Time())
  {
    if r != [] {
      WellFormedMeans(r[1..]);
      assert r == [r[0]] + r[1..];
    }
  }

  /** No row is lost, repeated or reordered. */
  lemma {:induction false} RecordsConserve(d: seq<Data>, t: seq<TextData>)
    ensures DataOf(Records(d, t)) == d && TextOf(Records(d, t)) == t
    decreases |d| + |t|
  {
    if d != [] || t != [] {
      var time := FirstTime(d, t);
      NowLater(d, time);
      NowLater(t, time);
      RecordsConserve(Later(d, time), Later(t, time));
    }
  }

  lemma {:induction false} RecordsSound(d: seq<Data>, t: seq<TextData>)
    requires TimeOrdered(d) && TimeOrdered(t)
    ensures WellFormed(Records(d, t))
    ensures d != [] || t != [] ==> Records(d, t)[0].Time() == FirstTime(d, t)
    decreases |d| + |t|
  {
    if d != [] || t != [] {
      var time := FirstTime(d, t);
      FirstTimeBounds(d, t);
      LaterOrdered(d, time);
      LaterOrdered(t, time);
      RecordsSound(Later(d, time), Later(t, time));
    }
  }

  /** Records is the only well-formed list that holds exactly the given rows in their order. */
  lemma {:induction false} RecordsUnique(r: seq<ObsRecord>)
    requires WellFormed(r)
    ensures r == Records(DataOf(r), TextOf(r))
    decreases |r|
  {
    if r != [] {
      FirstRecordUnique(r);
      RecordsUnique(r[1..]);
      assert r == [r[0]] + r[1..];
    }
  }

  /** The first group of the rows of a well-formed list is its first record, the rest are the other records'. */
  lemma {:induction false} FirstRecordUnique(r: seq<ObsRecord>)
    requires WellFormed(r) && r != []
    ensures Records(DataOf(r), TextOf(r)) == [r[0]] + Records(DataOf(r[1..]), TextOf(r[1..]))
  {
    var head, rest := r[0], r[1..];
    var d, t := DataOf(rest), TextOf(rest);
    LaterRows(rest, head.Time());
    hide WellFormed, Now, Later;
    RunIsPrefix(head.dataList, d, head.Time());
    RunIsPrefix(head.textDataList, t, head.Time());
    assert DataOf(r) == head.dataList + d && TextOf(r) == head.textDataList + t;
    assert FirstTime(DataOf(r), TextOf(r)) == head.Time();
    assert Record(head.dataList, head.textDataList) == head;
  }

  lemma {:induction false} LaterRows(r: seq<ObsRecord>, time: int)
    requires WellFormed(r) && (r != [] ==> time < r[0].Time())
    ensures AllFrom(DataOf(r), time + 1) && AllFrom(TextOf(r), time + 1)
  {
    if r != [] {
      LaterRows(r[1..], r[0].Time());
    }
  }

  lemma {:induction false} RunIsPrefix<V>(a: seq<Row<V>>, b: seq<Row<V>>, time: int)
    requires forall k | 0 <= k < |a| :: a[k].obstime == time
    requires b != [] ==> b[0].obstime != time
    ensures Now(a + b, time) == a && Later(a + b, time) == b
  {
    if a == [] {
      assert a + b == b;
    } else {
      assert (a + b)[1..] == a[1..] + b;
      RunIsPrefix(a[1..], b, time);
    }
  }

  // ------------------------------------------------------- cutting at a time changes nothing

  lemma {:induction false} CutAppend<V>(a: seq<Row<V>>, b: seq<Row<V>>, time: int)
    requires b != [] ==> b[0].obstime != time
    ensures Now(a + b, time) == Now(a, time) && Later(a + b, time) == Later(a, time) + b
  {
    if a == [] {
      assert a + b == b;
    } else {
      assert (a + b)[1..] == a[1..] + b;
      CutAppend(a[1..], b, time);
    }
  }

  lemma {:induction false} LaterBefore<V>(s: seq<Row<V>>, time: int, cut: int)
    requires AllBefore(s, cut)
    ensures AllBefore(Later(s, time), cut)
  {
    if s != [] {
      LaterBefore(s[1..], time, cut);
    }
  }

  lemma {:induction false} FirstTimeAppend(d1: seq<Data>, t1: seq<TextData>, d2: seq<Data>, t2: seq<TextData>, cut: int)
    requires AllBefore(d1, cut) && AllBefore(t1, cut) && AllFrom(d2, cut) && AllFrom(t2, cut)
    requires d1 != [] || t1 != []
    ensures FirstTime(d1 + d2, t1 + t2) == FirstTime(d1, t1) < cut
  {
    assert d1 != [] ==> (d1 + d2)[0] == d1[0];
    assert t1 != [] ==> (t1 + t2)[0] == t1[0];
    assert d1 == [] ==> d1 + d2 == d2;
    assert t1 == [] ==> t1 + t2 == t2;
  }

  lemma {:induction false} FirstRecordAppend(d1: seq<Data>, t1: seq<TextData>, d2: seq<Data>, t2: seq<TextData>,
                                             cut: int)
    requires AllBefore(d1, cut) && AllBefore(t1, cut) && AllFrom(d2, cut) && AllFrom(t2, cut)
    requires d1 != [] || t1 != []
    ensures var time := FirstTime(d1, t1);
            Records(d1 + d2, t1 + t2)
            == [Record(Now(d1, time), Now(t1, time))] + Records(Later(d1, time) + d2, Later(t1, time) + t2)
  {
    var time := FirstTime(d1, t1);
    FirstTimeAppend(d1, t1, d2, t2, cut);
    CutAppend(d1, d2, time);
    CutAppend(t1, t2, time);
  }

  /** Rows before and rows from `cut` can be made into records separately: no record is split,
      none is merged. */
  lemma {:induction false} RecordsSplit(d1: seq<Data>, t1: seq<TextData>, d2: seq<Data>, t2: seq<TextData>, cut: int)
    requires AllBefore(d1, cut) && AllBefore(t1, cut) && AllFrom(d2, cut) && AllFrom(t2, cut)
    ensures Records(d1 + d2, t1 + t2) == Records(d1, t1) + Records(d2, t2)
    decreases |d1| + |t1|
  {
    if d1 == [] && t1 == [] {
      assert d1 + d2 == d2 && t1 + t2 == t2;
    } else {
      var time := FirstTime(d1, t1);
      LaterBefore(d1, time, cut);
      LaterBefore(t1, time, cut);
      RecordsSplit(Later(d1, time), Later(t1, time), d2, t2, cut);
      FirstRecordAppend(d1, t1, d2, t2, cut);
    }
  }

  // --------------------------------------------------------------------- status filter

  predicate Passes(status: StatusId, row: Data) {
    match status
    case All => true
    case OnlyOk => row.value.cfailed == ""
    case OnlyFailed => row.value.cfailed != ""
  }

  /** The rows the client asked for, in their order. */
  function Passing(d: seq<Data>, status: StatusId): seq<Data> {
    if d == [] then []
    else (if Passes(status, d[0]) then [d[0]] else []) + Passing(d[1..], status)
  }

  lemma {:induction false} PassingAppend(a: seq<Data>, b: seq<Data>, status: StatusId)
    ensures Passing(a + b, status) == Passing(a, status) + Passing(b, status)
  {
    if a == [] {
      assert a + b == b;
    } else {
      assert (a + b)[1..] == a[1..] + b;
      PassingAppend(a[1..], b, status);
    }
  }

  lemma {:induction false} PassingNone(a: seq<Data>, status: StatusId)
    requires forall k | 0 <= k < |a| :: !Passes(status, a[k])
    ensures Passing(a, status) == []
  {
    if a != [] {
      PassingNone(a[1..], status);
    }
  }

  /** The rows that are left are those that pass. */
  lemma {:induction false} PassingMembers(d: seq<Data>, status: StatusId)
    ensures forall row :: row in Passing(d, status) <==> row in d && Passes(status, row)
  {
    if d != [] {
      PassingMembers(d[1..], status);
      assert d == [d[0]] + d[1..];
    }
  }

  lemma {:induction false} PassingOrdered(d: seq<Data>, status: StatusId)
    requires TimeOrdered(d)
    ensures TimeOrdered(Passing(d, status))
  {
    if d != [] {
      PassingOrdered(d[1..], status);
      PassingMembers(d[1..], status);
      var rest := Passing(d[1..], status);
      forall k | 0 <= k < |rest| ensures d[0].obstime <= rest[k].obstime {
        assert rest[k] in rest;
        var j :| 0 <= j < |d[1..]| && d[1..][j] == rest[k];
      }
    }
  }

  // --------------------------------------------------------------------- the select

  /** select * where stationid = station and stime <= obstime and obstime <= etime order by obstime:
      the table is kept in the order the select returns. */
  function Select<V>(table: seq<Row<V>>, station: int, stime: int, etime: int): seq<Row<V>> {
    if table == [] then []
    else (if table[0].stationId == station && stime <= table[0].obstime <= etime then [table[0]] else [])
         + Select(table[1..], station, stime, etime)
  }

  /** The rows selected are those of the table that are of the station and in the interval. */
  lemma {:induction false} SelectWithin<V>(table: seq<Row<V>>, station: int, stime: int, etime: int)
    ensures forall row | row in Select(table, station, stime, etime) ::
              row in table && row.stationId == station && stime <= row.obstime <= etime
    ensures forall row | row in table && row.stationId == station && stime <= row.obstime <= etime ::
              row in Select(table, station, stime, etime)
  {
    if table != [] {
      SelectWithin(table[1..], station, stime, etime);
      forall row | row in Select(table, station, stime, etime)
        ensures row in table && row.stationId == station && stime <= row.obstime <= etime
      {
        if row in Select(table[1..], station, stime, etime) {
          assert row in table[1..];
        }
      }
      forall row | row in table && row.stationId == station && stime <= row.obstime <= etime
        ensures row in Select(table, station, stime, etime)
      {
        if row != table[0] {
          assert row in table[1..];
        }
      }
    }
  }

  lemma {:induction false} SelectOrdered<V>(table: seq<Row<V>>, station: int, stime: int, etime: int)
    requires TimeOrdered(table)
    ensures TimeOrdered(Select(table, station, stime, etime))
  {
    if table != [] {
      var rest := Select(table[1..], station, stime, etime);
      SelectOrdered(table[1..], station, stime, etime);
      SelectWithin(table[1..], station, stime, etime);
      forall k | 0 <= k < |rest| ensures table[0].obstime <= rest[k].obstime {
        assert rest[k] in rest;
        assert rest[k] in table[1..];
      }
    }
  }

  lemma {:induction false} SelectEmpty<V>(table: seq<Row<V>>, station: int, stime: int, etime: int)
    requires forall k | 0 <= k < |table| :: etime < table[k].obstime
    ensures Select(table, station, stime, etime) == []
  {
    if table != [] {
      SelectEmpty(table[1..], station, stime, etime);
    }
  }

  /** The interval [stime, etime] is the interval [stime, cut - 1 second] followed by [cut, etime]. */
  lemma {:induction false} SelectSplit<V>(table: seq<Row<V>>, station: int, stime: int, cut: int, etime: int)
    requires TimeOrdered(table)
    requires stime <= cut <= etime + 1
    ensures Select(table, station, stime, etime)
         == Select(table, station, stime, cut - 1) + Select(table, station, cut, etime)
  {
    if table == [] {
    } else {
      var row, rest := table[0], table[1..];
      SelectSplit(rest, station, stime, cut, etime);
      if cut <= row.obstime {
        SelectEmpty(rest, station, stime, cut - 1);
      }
      FirstRow(table, station, stime, etime);
      FirstRow(table, station, stime, cut - 1);
      FirstRow(table, station, cut, etime);
      hide Select, TimeOrdered;
      Interleave(Selected(row, station, stime, cut - 1), Selected(row, station, cut, etime),
                 Select(rest, station, stime, cut - 1), Select(rest, station, cut, etime));
    }
  }

  function Selected<V>(row: Row<V>, station: int, stime: int, etime: int): seq<Row<V>> {
    if row.stationId == station && stime <= row.obstime <= etime then [row] else []
  }

  lemma {:induction false} FirstRow<V>(table: seq<Row<V>>, station: int, stime: int, etime: int)
    requires table != []
    ensures Select(table, station, stime, etime)
         == Selected(table[0], station, stime, etime) + Select(table[1..], station, stime, etime)
  {
  }

  lemma {:induction false} Interleave<T>(a: seq<T>, b: seq<T>, c: seq<T>, d: seq<T>)
    requires b == [] || (a == [] && c == [])
    ensures (a + b) + (c + d) == (a + c) + (b + d)
  {
  }
}
