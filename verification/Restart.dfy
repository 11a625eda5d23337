/** A restart of the service: the containers are rebuilt from the durable copy, row by row. */
module Restart {
  import opened Requests
  import opened SubscriberText
  import opened Registry

  const EMPTY := Memory(Containers(Index([], []), Index([], []), []), {})

  function WithStations(index: Index, p: Subscriber, ids: seq<int>): Index {
    if ids == [] then index else WithStation(WithStations(index, p, ids[..|ids| - 1]), ids[|ids| - 1], p)
  }

  /** A subscriber without a station list listens to all stations; one whose list holds no number is dropped. */
  function LoadedInto(index: Index, r: Restored): Option<Index> {
    if r.stationList == [] then Some(WithAll(index, r.sub))
    else if Numbers(r.stationList) == [] then None
    else Some(WithStations(index, r.sub, Numbers(r.stationList)))
  }

  /** The id of a hint subscriber is not made known as taken. */
  function Loaded(m: Memory, r: Restored): Memory {
    match r.kind
    case Hint => m.(c := m.c.(hints := m.c.hints + [r.sub]))
    case DataNotify =>
      (match LoadedInto(m.c.notify, r)
       case Some(index) => Memory(m.c.(notify := index), m.subscribers + {r.sub.id})
       case None => m)
    case Data =>
      (match LoadedInto(m.c.data, r)
       case Some(index) => Memory(m.c.(data := index), m.subscribers + {r.sub.id})
       case None => m)
  }

  /** The first n rows, those that cannot be read left out. */
  function Reloaded(rows: seq<string>, n: nat): Memory
    requires n <= |rows|
  {
    if n == 0 then EMPTY
    else match Read(rows[n - 1])
         case Ok(r) => Loaded(Reloaded(rows, n - 1), r)
         case FormatError => Reloaded(rows, n - 1)
  }

  method ReadAllSubscribersFromDb(rows: seq<string>) returns (m: Memory)
    ensures m == Reloaded(rows, |rows|)
  {
    hide Read, Loaded;
    m := EMPTY;
    for i := 0 to |rows|
      invariant m == Reloaded(rows, i)
    {
      var r := ReadSubscriberFromDb(rows[i]);
      if r.Ok? {
        m := Loaded(m, r.value);
      }
    }
  }

  // ------------------------------------------------------------------- rows of a good copy

  /** An entry as the writers make them. */
  ghost predicate WellStored(id: string, e: Entry) {
    && KindOf(id).Ok? && e.sub.id == id && Plain(id) && Plain(e.sub.cref)
    && if KindOf(id).value.Hint? then e.sub == Kept(Hint, e.sub) && e.stations == NoStations
       else !e.stations.NoStations? && (e.stations.Listed? ==> e.stations.ids != [])
  }

  ghost predicate GoodCopy(keyVal: map<string, Entry>) { forall id | id in keyVal :: WellStored(id, keyVal[id]) }

  /** The rows hold the subscribers of the copy, each once, in any order. */
  ghost predicate Listing(keyVal: map<string, Entry>, ids: seq<string>) {
    && (forall id :: id in ids <==> id in keyVal)
    && (forall i, j | 0 <= i < j < |ids| :: ids[i] != ids[j])
  }

  function RowOf(id: string, e: Entry, now: string): string
    requires KindOf(id).Ok?
  {
    Stored(KindOf(id).value, e.sub, e.stations, now)
  }

  ghost predicate RowsOf(keyVal: map<string, Entry>, ids: seq<string>, times: seq<string>, rows: seq<string>) {
    && GoodCopy(keyVal) && Listing(keyVal, ids) && |rows| == |ids| == |times|
    && forall i | 0 <= i < |ids| ::
         Plain(times[i]) && ids[i] in keyVal && rows[i] == RowOf(ids[i], keyVal[ids[i]], times[i])
  }

  /** What a restart makes of an entry. */
  function Forgotten(id: string, e: Entry): Entry
    requires KindOf(id).Ok?
  {
    e.(stations := if KindOf(id).value.Hint? then NoStations else AllStations)
  }

  // ------------------------------------------------------------------------------ the restart

  /** Loading a subscriber nobody was registered as gives it the entry of an all-stations subscriber. */
  lemma {:induction false} LoadOne(m: Memory, kind: Kind, sub: Subscriber, id: string)
    requires KindOf(sub.id) == Ok(kind) && EntryFor(m.c, sub.id) == None
    ensures var e := Entry(sub, if kind.Hint? then NoStations else AllStations);
            EntryFor(Loaded(m, Restored(kind, sub, [])).c, id) == if id == sub.id then Some(e) else EntryFor(m.c, id)
  {
    hide KindOf, FirstOf, FirstListed;
    FirstOfAppend(m.c.notify.all, sub, id);
    FirstOfAppend(m.c.data.all, sub, id);
    FirstOfAppend(m.c.hints, sub, id);
    OneWithout(sub, id);
  }

  lemma {:induction false} ReloadEntries(keyVal: map<string, Entry>, ids: seq<string>, times: seq<string>,
                                         rows: seq<string>, n: nat, id: string)
    requires RowsOf(keyVal, ids, times, rows) && n <= |ids|
    ensures EntryFor(Reloaded(rows, n).c, id) == if id in ids[..n] then Some(Forgotten(id, keyVal[id])) else None
  {
    hide Read, Loaded, EntryFor, KindOf, Stored, Plain;
    if n == 0 {
      NothingLoaded(id);
    } else {
      var last := ids[n - 1];
      var kind, e := KindOf(last).value, keyVal[last];
      assert WellStored(last, e) && ids[..n] == ids[..n - 1] + [last];
      RoundTrip(kind, e.sub, e.stations, times[n - 1]);
      assert Kept(kind, e.sub) == e.sub;
      ReloadEntries(keyVal, ids, times, rows, n - 1, id);
      ReloadEntries(keyVal, ids, times, rows, n - 1, last);
      assert last !in ids[..n - 1];
      LoadOne(Reloaded(rows, n - 1), kind, e.sub, id);
    }
  }

  lemma {:induction false} NothingLoaded(id: string)
    ensures EntryFor(EMPTY.c, id) == None
  {
  }

  /** The rebuilt containers agree with the copy if and only if no data or datanotify subscriber in it wanted a
      list of stations. */
  lemma {:induction false} RestartAgreesIff(keyVal: map<string, Entry>, ids: seq<string>, times: seq<string>,
                                            rows: seq<string>)
    requires RowsOf(keyVal, ids, times, rows)
    ensures Agrees(keyVal, Reloaded(rows, |rows|).c) <==> forall id | id in keyVal :: !keyVal[id].stations.Listed?
  {
    hide Read, Loaded, EntryFor, KindOf, Reloaded;
    var c := Reloaded(rows, |rows|).c;
    assert ids[..|ids|] == ids;
    forall id ensures EntryFor(c, id) == if id in keyVal then Some(Forgotten(id, keyVal[id])) else None {
      ReloadEntries(keyVal, ids, times, rows, |ids|, id);
    }
    forall id | id in keyVal
      ensures Lookup(keyVal, id) == EntryFor(c, id) <==> !keyVal[id].stations.Listed?
    {
      assert WellStored(id, keyVal[id]);
    }
    if forall id | id in keyVal :: !keyVal[id].stations.Listed? {
      forall id ensures Lookup(keyVal, id) == EntryFor(c, id) {
      }
    }
  }

  // -------------------------------------------------------------------- the collection again

  ghost predicate NoStationList(keyVal: map<string, Entry>) {
    forall id | id in keyVal :: !keyVal[id].stations.Listed?
  }

  ghost predicate NoHintStored(keyVal: map<string, Entry>) { forall id | id in keyVal :: KindOf(id) != Ok(Hint) }

  /** Where the rebuilt subscribers are, and which ids are known to be taken. */
  lemma {:induction false} ReloadFiles(keyVal: map<string, Entry>, ids: seq<string>, times: seq<string>,
                                       rows: seq<string>, n: nat)
    requires RowsOf(keyVal, ids, times, rows) && n <= |ids|
    ensures var m := Reloaded(rows, n);
            && Filed(m.c)
            && (forall s | s in m.c.hints :: s.id in ids[..n])
            && (forall id | id in ids[..n] && KindOf(id) == Ok(Hint) :: exists s :: s in m.c.hints && s.id == id)
            && (forall id | id in m.subscribers :: KindOf(id) != Ok(Hint))
  {
    hide Read, Loaded, KindOf, Stored, Plain;
    if n == 0 {
      EmptyIsFiled();
    } else {
      var last := ids[n - 1];
      var kind, e := KindOf(last).value, keyVal[last];
      assert WellStored(last, e) && ids[..n] == ids[..n - 1] + [last];
      RoundTrip(kind, e.sub, e.stations, times[n - 1]);
      assert Kept(kind, e.sub) == e.sub;
      ReloadFiles(keyVal, ids, times, rows, n - 1);
      assert last !in ids[..n - 1];
      LoadFiles(Reloaded(rows, n - 1), kind, e.sub, ids[..n - 1]);
    }
  }

  lemma {:induction false} EmptyIsFiled()
    ensures Filed(EMPTY.c)
  {
  }

  lemma {:induction false} LoadFiles(m: Memory, kind: Kind, sub: Subscriber, ids: seq<string>)
    requires Filed(m.c) && KindOf(sub.id) == Ok(kind) && sub.id !in ids
    requires forall s | s in m.c.hints :: s.id in ids
    requires forall id | id in m.subscribers :: KindOf(id) != Ok(Hint)
    ensures var m' := Loaded(m, Restored(kind, sub, []));
            && Filed(m'.c) && m'.c.hints == m.c.hints + (if kind.Hint? then [sub] else [])
            && forall id | id in m'.subscribers :: KindOf(id) != Ok(Hint)
  {
    hide KindOf;
  }

  /** A restart: the collection that goes on is sound if and only if no station list and no hint subscriber was
      stored. A station list is forgotten, and the id of a hint subscriber can be given out again. */
  method Start(keyVal: map<string, Entry>, rows: seq<string>, ghost ids: seq<string>, ghost times: seq<string>)
    returns (collection: KvSubscriberCollection)
    requires RowsOf(keyVal, ids, times, rows)
    ensures fresh(collection) && collection.keyVal == keyVal
    ensures collection.Contents() == Reloaded(rows, |rows|).c
    ensures collection.Valid() <==> NoStationList(keyVal) && NoHintStored(keyVal)
    ensures collection.HintIdsTaken() <==> NoHintStored(keyVal)
  {
    hide Reloaded, Filed, KindOf, RowsOf, Agrees;
    var m := ReadAllSubscribersFromDb(rows);
    collection := new KvSubscriberCollection.Rebuilt(m, keyVal);
    RestartAgreesIff(keyVal, ids, times, rows);
    HintsTakenIff(keyVal, ids, times, rows);
  }

  lemma {:induction false} HintsTakenIff(keyVal: map<string, Entry>, ids: seq<string>, times: seq<string>,
                                         rows: seq<string>)
    requires RowsOf(keyVal, ids, times, rows)
    ensures var m := Reloaded(rows, |rows|);
            && Filed(m.c)
            && ((forall s | s in m.c.hints :: s.id in m.subscribers) <==> NoHintStored(keyVal))
  {
    hide Reloaded, KindOf, RowOf, GoodCopy;
    ReloadFiles(keyVal, ids, times, rows, |ids|);
    assert ids[..|ids|] == ids;
  }

  // --------------------------------------------------------------- the copy of a collection

  /** Ids and references are on one line; a hint subscriber has no status and no checks. */
  ghost predicate PlainSubscribers(c: Containers) {
    && PlainIndex(c.notify) && PlainIndex(c.data)
    && forall s | s in c.hints :: Plain(s.id) && Plain(s.cref) && s == Kept(Hint, s)
  }

  ghost predicate PlainIndex(index: Index) {
    && (forall s | s in index.all :: Plain(s.id) && Plain(s.cref))
    && (forall e | e in index.stations :: Plain(e.1.id) && Plain(e.1.cref))
  }

  lemma {:induction false} EntryIsWellStored(index: Index, kind: Kind, id: string)
    requires PlainIndex(index) && KindOf(id) == Ok(kind) && !kind.Hint? && EntryIn(index, id).Some?
    ensures WellStored(id, EntryIn(index, id).value)
  {
    hide KindOf, Plain, FirstOf, FirstListed;
    FirstOfMeans(index.all, id);
    FirstListedMeans(index.stations, id);
  }

  /** A copy in agreement with the containers it was written from is one the restart can read. */
  lemma {:induction false} AgreeingCopyIsGood(keyVal: map<string, Entry>, c: Containers)
    requires Agrees(keyVal, c) && Filed(c) && PlainSubscribers(c)
    ensures GoodCopy(keyVal)
  {
    hide EntryIn, KindOf, Filed, PlainIndex, Plain;
    forall id | id in keyVal ensures WellStored(id, keyVal[id]) {
      assert Lookup(keyVal, id) == EntryFor(c, id) == Some(keyVal[id]);
      FirstOfMeans(c.hints, id);
      match KindOf(id) {
        case Ok(DataNotify) => EntryIsWellStored(c.notify, DataNotify, id);
        case Ok(Data) => EntryIsWellStored(c.data, Data, id);
        case Ok(Hint) =>
      }
    }
  }
}
