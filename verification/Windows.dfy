/** What an iterator still owes its client, and what one window or one call of next takes off it. */
module Windows {
  import opened ObsRecords
  import opened Requests

  datatype Outcome = Found | SelectFailed | InvalidWhichData

  /** The records owed by an iterator over `which` that stands at entry i, inside it when `current` is a
      time, with `end` the end in force: all of them, whatever windows they will come in. */
  ghost function Owed(db: Tables, which: seq<WhichData>, i: nat, current: Option<int>, end: Option<int>, now: int,
                      inherit: bool): seq<ObsRecord> {
    if current.Some? && end.Some? && i < |which| then
      EntryRecords(db, which[i], current.value, end.value) +
      Answer(db, which, i + 1, if inherit then end else None, now, inherit)
    else
      Answer(db, which, i, if inherit then end else None, now, inherit)
  }

  lemma {:induction false} OwedStart(db: Tables, which: seq<WhichData>, i: nat, before: Option<int>, now: int,
                                     inherit: bool)
    requires i < |which| && which[i].fromObsTime.At?
    ensures var stime := which[i].fromObsTime.time;
            var end := EffectiveEnd(if inherit then before else None, which[i], now);
            Owed(db, which, i, None, before, now, inherit) == Owed(db, which, i, Some(stime), Some(end), now, inherit)
  {
  }

  lemma {:induction false} OwedInvalid(db: Tables, which: seq<WhichData>, i: nat, before: Option<int>, now: int,
                                       inherit: bool)
    requires i < |which| && !which[i].fromObsTime.At?
    ensures Owed(db, which, i, None, before, now, inherit) == []
  {
  }

  lemma {:induction false} OwedCut(db: Tables, which: seq<WhichData>, i: nat, stime: int, cut: int, end: int,
                                   now: int, inherit: bool)
    requires db.Valid() && i < |which| && stime <= cut <= end
    ensures Owed(db, which, i, Some(stime), Some(end), now, inherit)
         == EntryRecords(db, which[i], stime, cut - 1) + Owed(db, which, i, Some(cut), Some(end), now, inherit)
  {
    hide EntryRecords, Answer;
    EntrySplit(db, which[i], stime, cut, end);
  }

  lemma {:induction false} OwedLast(db: Tables, which: seq<WhichData>, i: nat, stime: int, end: int, now: int,
                                    inherit: bool)
    requires i < |which|
    ensures Owed(db, which, i, Some(stime), Some(end), now, inherit)
         == EntryRecords(db, which[i], stime, end) + Owed(db, which, i + 1, None, Some(end), now, inherit)
  {
  }

  /** `part` and then `rest` are what was owed: in full when the text selects work, in the data rows always. */
  ghost predicate Splits(owed: seq<ObsRecord>, part: seq<ObsRecord>, rest: seq<ObsRecord>, textOk: bool) {
    && DataOf(owed) == DataOf(part) + DataOf(rest)
    && (textOk ==> owed == part + rest)
  }

  lemma {:induction false} SplitsOn(owed: seq<ObsRecord>, a: seq<ObsRecord>, rest: seq<ObsRecord>, b: seq<ObsRecord>,
                                    rest': seq<ObsRecord>, textOk: bool)
    requires Splits(owed, a, rest, textOk) && Splits(rest, b, rest', textOk)
    ensures Splits(owed, a + b, rest', textOk)
  {
    hide DataOf;
    AppendData(a, b);
    if textOk {
      assert a + (b + rest') == (a + b) + rest';
    }
  }

  lemma {:induction false} NothingLeft(owed: seq<ObsRecord>, part: seq<ObsRecord>)
    requires Splits(owed, part, [], true)
    ensures part == owed
  {
  }

  lemma {:induction false} NoRows()
    ensures forall status :: Records(Passing([], status), []) == []
  {
  }

  lemma {:induction false} NothingOwed(owed: seq<ObsRecord>, textOk: bool)
    requires Splits(owed, [], [], textOk)
    ensures DataOf(owed) == [] && (textOk ==> owed == [])
  {
  }

  lemma {:induction false} SplitsFirst(owed: seq<ObsRecord>, rest: seq<ObsRecord>, b: seq<ObsRecord>,
                                       rest': seq<ObsRecord>, textOk: bool)
    requires Splits(owed, [], rest, textOk) && Splits(rest, b, rest', textOk)
    ensures Splits(owed, b, rest', textOk)
  {
  }

  /** The records built from a window's rows are what the window owes; without its text rows they still
      hold all its data rows. */
  lemma {:induction false} WindowSplits(db: Tables, w: WhichData, stime: int, etime: int, text: seq<TextData>,
                                        owed: seq<ObsRecord>, rest: seq<ObsRecord>, textOk: bool)
    requires db.Valid() && owed == EntryRecords(db, w, stime, etime) + rest
    requires text == Select(db.text, w.stationId, stime, etime) || (!textOk && text == [])
    ensures TimeOrdered(Select(db.data, w.stationId, stime, etime)) && TimeOrdered(text)
    ensures Splits(owed, Records(Passing(Select(db.data, w.stationId, stime, etime), w.status), text), rest, textOk)
  {
    var data := Passing(Select(db.data, w.stationId, stime, etime), w.status);
    SelectOrdered(db.data, w.stationId, stime, etime);
    SelectOrdered(db.text, w.stationId, stime, etime);
    RecordsConserve(data, Select(db.text, w.stationId, stime, etime));
    RecordsConserve(data, text);
    AppendData(EntryRecords(db, w, stime, etime), rest);
  }
}
