/** What a client asks for, and the answer it is owed: every entry of the request served by one query. */
module Requests {
  import opened ObsRecords

  const HOUR := 3600

  datatype Option<+T> = None | Some(value: T)

  /** A time as text: nothing, something that is no time, or a time. */
  datatype TimeSpec = Empty | Malformed | At(time: int)

  datatype WhichData = WhichData(stationId: int, status: StatusId, fromObsTime: TimeSpec, toObsTime: TimeSpec)

  /** The two tables, each in the order the selects return. */
  datatype Tables = Tables(data: seq<Data>, text: seq<TextData>)
  {
    ghost predicate Valid() { TimeOrdered(data) && TimeOrdered(text) }
  }

  /** The records of one station in the closed interval [stime, etime]. */
  ghost function EntryRecords(db: Tables, w: WhichData, stime: int, etime: int): seq<ObsRecord> {
    Records(Passing(Select(db.data, w.stationId, stime, etime), w.status),
            Select(db.text, w.stationId, stime, etime))
  }

  /** A window that ends one second before `cut` and one that starts at `cut` neither lose nor repeat a
      row, and no record is split between them. */
  lemma {:induction false} EntrySplit(db: Tables, w: WhichData, stime: int, cut: int, etime: int)
    requires db.Valid() && stime <= cut <= etime + 1
    ensures EntryRecords(db, w, stime, etime) == EntryRecords(db, w, stime, cut - 1) + EntryRecords(db, w, cut, etime)
  {
    var d1, d2 := Select(db.data, w.stationId, stime, cut - 1), Select(db.data, w.stationId, cut, etime);
    var t1, t2 := Select(db.text, w.stationId, stime, cut - 1), Select(db.text, w.stationId, cut, etime);
    SelectSplit(db.data, w.stationId, stime, cut, etime);
    SelectSplit(db.text, w.stationId, stime, cut, etime);
    PassingAppend(d1, d2, w.status);
    PassingWithin(db.data, w, stime, cut - 1);
    PassingWithin(db.data, w, cut, etime);
    SelectOrdered(db.text, w.stationId, stime, cut - 1);
    SelectOrdered(db.text, w.stationId, cut, etime);
    SelectWithin(db.text, w.stationId, stime, cut - 1);
    SelectWithin(db.text, w.stationId, cut, etime);
    hide Passing, Select, Records, TimeOrdered;
    RecordsSplit(Passing(d1, w.status), t1, Passing(d2, w.status), t2, cut);
  }

  /** The rows of an interval that pass are in the interval, and in order. */
  lemma {:induction false} PassingWithin(table: seq<Data>, w: WhichData, stime: int, etime: int)
    requires TimeOrdered(table)
    ensures var p := Passing(Select(table, w.stationId, stime, etime), w.status);
            TimeOrdered(p) && forall k | 0 <= k < |p| :: stime <= p[k].obstime <= etime
  {
    var d := Select(table, w.stationId, stime, etime);
    SelectOrdered(table, w.stationId, stime, etime);
    SelectWithin(table, w.stationId, stime, etime);
    PassingOrdered(d, w.status);
    PassingMembers(d, w.status);
    var p := Passing(d, w.status);
    forall k | 0 <= k < |p| ensures stime <= p[k].obstime <= etime {
      assert p[k] in d;
    }
  }

  /** The end of an entry's interval: its own end time, the start time of the iterator when that is
      malformed, and when it is absent the end in force before, or the start time again. */
  function EffectiveEnd(before: Option<int>, w: WhichData, now: int): int {
    match w.toObsTime
    case At(t) => t
    case Malformed => now
    case Empty => if before.Some? then before.value else now
  }

  /** The answer to entries i.. of a request. With `inherit` an absent end time is the end of the entry
      before, otherwise the start time of the iterator. An entry without a start time ends the answer. */
  ghost function Answer(db: Tables, which: seq<WhichData>, i: nat, before: Option<int>, now: int,
                        inherit: bool): seq<ObsRecord>
    decreases |which| - i
  {
    if i >= |which| || !which[i].fromObsTime.At? then []
    else
      var end := EffectiveEnd(before, which[i], now);
      EntryRecords(db, which[i], which[i].fromObsTime.time, end)
      + Answer(db, which, i + 1, if inherit then Some(end) else None, now, inherit)
  }

  /** Both ends bound the same whole seconds: they are equal, or both intervals are empty. */
  predicate SameInterval(from: int, e1: int, e2: int) {
    e1 == e2 || (e1 < from && e2 < from)
  }

  /** Inheriting the end or not makes no difference to the interval of any entry that is served. */
  ghost predicate EndsAgree(which: seq<WhichData>, i: nat, b1: Option<int>, b2: Option<int>, now: int)
    decreases |which| - i
  {
    i >= |which| || !which[i].fromObsTime.At? ||
    (var e1, e2 := EffectiveEnd(b1, which[i], now), EffectiveEnd(b2, which[i], now);
     SameInterval(which[i].fromObsTime.time, e1, e2) && EndsAgree(which, i + 1, Some(e1), None, now))
  }

  lemma {:induction false} EmptyInterval(db: Tables, w: WhichData, stime: int, etime: int)
    requires etime < stime
    ensures EntryRecords(db, w, stime, etime) == []
  {
    SelectNothing(db.data, w.stationId, stime, etime);
    SelectNothing(db.text, w.stationId, stime, etime);
  }

  lemma {:induction false} SelectNothing<V>(table: seq<Row<V>>, station: int, stime: int, etime: int)
    requires etime < stime
    ensures Select(table, station, stime, etime) == []
  {
    if table != [] {
      SelectNothing(table[1..], station, stime, etime);
    }
  }

  lemma {:induction false} AgreeingAnswers(db: Tables, which: seq<WhichData>, i: nat, b1: Option<int>,
                                           b2: Option<int>, now: int)
    requires EndsAgree(which, i, b1, b2, now)
    ensures Answer(db, which, i, b1, now, true) == Answer(db, which, i, b2, now, false)
    decreases |which| - i
  {
    if i < |which| && which[i].fromObsTime.At? {
      var e1, e2 := EffectiveEnd(b1, which[i], now), EffectiveEnd(b2, which[i], now);
      var from := which[i].fromObsTime.time;
      if e1 != e2 {
        EmptyInterval(db, which[i], from, e1);
        EmptyInterval(db, which[i], from, e2);
      }
      AgreeingAnswers(db, which, i + 1, Some(e1), None, now);
    }
  }

  /** With every end time given the two ways of choosing the end agree. */
  lemma {:induction false} GivenEndsAgree(which: seq<WhichData>, i: nat, b1: Option<int>, b2: Option<int>, now: int)
    requires forall k | i <= k < |which| :: which[k].toObsTime != Empty
    ensures EndsAgree(which, i, b1, b2, now)
    decreases |which| - i
  {
    if i < |which| {
      GivenEndsAgree(which, i + 1, Some(EffectiveEnd(b1, which[i], now)), None, now);
    }
  }

  /** Window independence: with every end time given, the adaptive and the fixed iterator owe the same
      records, text included, for the same request and tables. */
  lemma {:induction false} WindowsInvisible(db: Tables, which: seq<WhichData>, now: int)
    requires forall k | 0 <= k < |which| :: which[k].toObsTime != Empty
    ensures Answer(db, which, 0, None, now, true) == Answer(db, which, 0, None, now, false)
  {
    GivenEndsAgree(which, 0, None, None, now);
    AgreeingAnswers(db, which, 0, None, None, now);
  }

  // ------------------------------------------ and only then: a table that tells them apart

  /** A text row of the given station at the given time. */
  function Witness(station: int, time: int): TextData { Row(station, time, 0, 0, 0, "") }

  ghost function TextCount(db: Tables, which: seq<WhichData>, i: nat, before: Option<int>, now: int,
                           inherit: bool): nat {
    |TextOf(Answer(db, which, i, before, now, inherit))|
  }

  /** How often a one-row text table is answered: once for each entry that covers the row. */
  ghost function Covers(which: seq<WhichData>, i: nat, before: Option<int>, now: int, inherit: bool, station: int,
                        time: int): nat
    decreases |which| - i
  {
    if i >= |which| || !which[i].fromObsTime.At? then 0
    else
      var end := EffectiveEnd(before, which[i], now);
      (if which[i].stationId == station && which[i].fromObsTime.time <= time <= end then 1 else 0)
      + Covers(which, i + 1, if inherit then Some(end) else None, now, inherit, station, time)
  }

  lemma {:induction false} OneRowSelected(row: TextData, station: int, stime: int, etime: int)
    ensures Select([row], station, stime, etime) == Selected(row, station, stime, etime)
    ensures forall status: StatusId :: Passing(Select([], station, stime, etime), status) == []
  {
    assert [row][1..] == [];
  }

  lemma {:induction false} TextCountCovers(which: seq<WhichData>, i: nat, before: Option<int>, now: int,
                                           inherit: bool, station: int, time: int)
    ensures TextCount(Tables([], [Witness(station, time)]), which, i, before, now, inherit)
         == Covers(which, i, before, now, inherit, station, time)
    decreases |which| - i
  {
    if i < |which| && which[i].fromObsTime.At? {
      var db := Tables([], [Witness(station, time)]);
      var end := EffectiveEnd(before, which[i], now);
      var next := if inherit then Some(end) else None;
      var text := Select(db.text, which[i].stationId, which[i].fromObsTime.time, end);
      OneRowSelected(Witness(station, time), which[i].stationId, which[i].fromObsTime.time, end);
      RecordsConserve([], text);
      AppendData(EntryRecords(db, which[i], which[i].fromObsTime.time, end),
                 Answer(db, which, i + 1, next, now, inherit));
      TextCountCovers(which, i + 1, next, now, inherit, station, time);
    }
  }

  /** Up to the start time of the iterator, dropping inheritance only adds coverage; after it, only removes. */
  lemma {:induction false} CoversOneWay(which: seq<WhichData>, i: nat, before: Option<int>, now: int, station: int,
                                        time: int)
    ensures time <= now ==>
              Covers(which, i, before, now, true, station, time) <= Covers(which, i, None, now, false, station, time)
    ensures time > now ==>
              Covers(which, i, before, now, true, station, time) >= Covers(which, i, None, now, false, station, time)
    decreases |which| - i
  {
    if i < |which| && which[i].fromObsTime.At? {
      CoversOneWay(which, i + 1, Some(EffectiveEnd(before, which[i], now)), now, station, time);
    }
  }

  lemma {:induction false} Distinguish(which: seq<WhichData>, i: nat, before: Option<int>, now: int)
    returns (station: int, time: int)
    requires !EndsAgree(which, i, before, None, now)
    ensures Covers(which, i, before, now, true, station, time) != Covers(which, i, None, now, false, station, time)
    ensures time <= now ==>
              Covers(which, i, before, now, true, station, time) <= Covers(which, i, None, now, false, station, time)
    ensures time > now ==>
              Covers(which, i, before, now, true, station, time) >= Covers(which, i, None, now, false, station, time)
    decreases |which| - i
  {
    var e := EffectiveEnd(before, which[i], now);
    if SameInterval(which[i].fromObsTime.time, e, EffectiveEnd(None, which[i], now)) {
      station, time := Distinguish(which, i + 1, Some(e), now);
    } else {
      station, time := which[i].stationId, if e < now then now else e;
      CoversOneWay(which, i + 1, Some(e), now, station, time);
    }
  }

  /** Serving absent end times with the end before, or with the start time, gives the same answer on
      every pair of tables if and only if no served entry's interval changes. */
  lemma {:induction false} InheritanceVisible(which: seq<WhichData>, now: int)
    ensures EndsAgree(which, 0, None, None, now)
       <==> forall db: Tables | db.Valid() ::
           Answer(db, which, 0, None, now, true) == Answer(db, which, 0, None, now, false)
  {
    if EndsAgree(which, 0, None, None, now) {
      forall db: Tables | db.Valid()
        ensures Answer(db, which, 0, None, now, true) == Answer(db, which, 0, None, now, false)
      {
        AgreeingAnswers(db, which, 0, None, None, now);
      }
    } else {
      var station, time := Distinguish(which, 0, None, now);
      TextCountCovers(which, 0, None, now, true, station, time);
      TextCountCovers(which, 0, None, now, false, station, time);
      var db := Tables([], [Witness(station, time)]);
      assert db.Valid();
      assert TextCount(db, which, 0, None, now, true) != TextCount(db, which, 0, None, now, false);
    }
  }

  /** The second end time is left out. */
  const NO_SECOND_END := [WhichData(1, All, At(0), At(10)), WhichData(1, All, At(0), Empty)]

  /** Served at time 20, this request shows the difference. */
  lemma {:induction false} InheritanceVisibleExample()
    ensures exists db: Tables | db.Valid() ::
              Answer(db, NO_SECOND_END, 0, None, 20, true) != Answer(db, NO_SECOND_END, 0, None, 20, false)
  {
    hide Answer;
    ExampleEndsDiffer();
    InheritanceVisible(NO_SECOND_END, 20);
  }

  lemma {:induction false} ExampleEndsDiffer()
    ensures !EndsAgree(NO_SECOND_END, 0, None, None, 20)
  {
    assert !EndsAgree(NO_SECOND_END, 1, Some(10), None, 20);
    assert EffectiveEnd(None, NO_SECOND_END[0], 20) == 10;
  }

  /** What the answer holds: entry by entry the passing data rows and the text rows of the entry's
      interval, each once and in table order. */
  lemma {:induction false} AnswerRows(db: Tables, which: seq<WhichData>, i: nat, before: Option<int>, now: int,
                                      inherit: bool)
    requires i < |which| && which[i].fromObsTime.At?
    ensures var end := EffectiveEnd(before, which[i], now);
            var rest := Answer(db, which, i + 1, if inherit then Some(end) else None, now, inherit);
            var from := which[i].fromObsTime.time;
            var answer := Answer(db, which, i, before, now, inherit);
            && DataOf(answer) == Passing(Select(db.data, which[i].stationId, from, end), which[i].status) + DataOf(rest)
            && TextOf(answer) == Select(db.text, which[i].stationId, from, end) + TextOf(rest)
  {
    var end := EffectiveEnd(before, which[i], now);
    var from := which[i].fromObsTime.time;
    var rest := Answer(db, which, i + 1, if inherit then Some(end) else None, now, inherit);
    AppendData(EntryRecords(db, which[i], from, end), rest);
    RecordsConserve(Passing(Select(db.data, which[i].stationId, from, end), which[i].status),
                    Select(db.text, which[i].stationId, from, end));
  }
}
