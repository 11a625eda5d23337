/** The subscriber registry: five containers in memory and a durable copy of each subscriber. */
module Registry {
  import opened Requests
  import opened SubscriberText

  type Listing = seq<(int, Subscriber)>

  /** The subscribers of one kind: those that listen to all stations, and a multimap by station, which is a
      sequence ordered by station, equal stations in the order of their insertion. */
  datatype Index = Index(all: seq<Subscriber>, stations: Listing)

  datatype Containers = Containers(notify: Index, data: Index, hints: seq<Subscriber>)

  /** The containers, and the ids known to be taken. */
  datatype Memory = Memory(c: Containers, subscribers: set<string>)

  /** What the durable copy says about a subscriber. */
  datatype Entry = Entry(sub: Subscriber, stations: Stations)

  // ----------------------------------------------------------------------------- plain scans

  function Without(list: seq<Subscriber>, id: string): seq<Subscriber> {
    if list == [] then []
    else var before, last := list[..|list| - 1], list[|list| - 1];
         Without(before, id) + if last.id == id then [] else [last]
  }

  function WithoutListed(listing: Listing, id: string): Listing {
    if listing == [] then []
    else var before, last := listing[..|listing| - 1], listing[|listing| - 1];
         WithoutListed(before, id) + if last.1.id == id then [] else [last]
  }

  /** The subscribers registered for a station. */
  function ListedAt(listing: Listing, station: int): seq<Subscriber> {
    if listing == [] then []
    else var before, last := listing[..|listing| - 1], listing[|listing| - 1];
         ListedAt(before, station) + if last.0 == station then [last.1] else []
  }

  /** The stations a subscriber is registered for. */
  function StationsOf(listing: Listing, id: string): seq<int> {
    if listing == [] then []
    else var before, last := listing[..|listing| - 1], listing[|listing| - 1];
         StationsOf(before, id) + if last.1.id == id then [last.0] else []
  }

  function FirstOf(list: seq<Subscriber>, id: string): Option<Subscriber> {
    if list == [] then None
    else var before, last := FirstOf(list[..|list| - 1], id), list[|list| - 1];
         if before.Some? then before else if last.id == id then Some(last) else None
  }

  function FirstListed(listing: Listing, id: string): Option<Subscriber> {
    if listing == [] then None
    else var before, last := FirstListed(listing[..|listing| - 1], id), listing[|listing| - 1];
         if before.Some? then before else if last.1.id == id then Some(last.1) else None
  }

  ghost predicate Sorted(listing: Listing) {
    forall i, j | 0 <= i < j < |listing| :: listing[i].0 <= listing[j].0
  }

  // ------------------------------------------------------------------ what belongs in the copy

  function EntryIn(index: Index, id: string): Option<Entry> {
    match FirstOf(index.all, id)
    case Some(sub) => Some(Entry(sub, AllStations))
    case None =>
      match FirstListed(index.stations, id)
      case Some(sub) => Some(Entry(sub, Listed(StationsOf(index.stations, id))))
      case None => None
  }

  function EntryFor(c: Containers, id: string): Option<Entry> {
    match KindOf(id)
    case Ok(DataNotify) => EntryIn(c.notify, id)
    case Ok(Data) => EntryIn(c.data, id)
    case Ok(Hint) =>
      (match FirstOf(c.hints, id)
       case Some(sub) => Some(Entry(sub, NoStations))
       case None => None)
    case FormatError => None
  }

  function Lookup(keyVal: map<string, Entry>, id: string): Option<Entry> {
    if id in keyVal then Some(keyVal[id]) else None
  }

  /** The copy holds exactly what belongs there. */
  ghost predicate Agrees(keyVal: map<string, Entry>, c: Containers) {
    forall id :: Lookup(keyVal, id) == EntryFor(c, id)
  }

  ghost predicate IndexFiled(index: Index, kind: Kind) {
    && (forall s | s in index.all :: KindOf(s.id) == Ok(kind))
    && (forall e | e in index.stations :: KindOf(e.1.id) == Ok(kind))
    && Sorted(index.stations)
  }

  ghost predicate HintsFiled(hints: seq<Subscriber>) {
    && (forall s | s in hints :: KindOf(s.id) == Ok(Hint))
    && DistinctIds(hints)
  }

  /** Every subscriber is where the type in its id says. */
  ghost predicate Filed(c: Containers) {
    IndexFiled(c.notify, DataNotify) && IndexFiled(c.data, Data) && HintsFiled(c.hints)
  }

  ghost predicate InIndex(index: Index, id: string) {
    (exists s | s in index.all :: s.id == id) || exists e | e in index.stations :: e.1.id == id
  }

  ghost predicate Registered(c: Containers, id: string) {
    InIndex(c.notify, id) || InIndex(c.data, id) || exists s | s in c.hints :: s.id == id
  }

  // ---------------------------------------------------------------------- lemmas on the scans

  lemma {:induction false} FirstOfMeans(list: seq<Subscriber>, id: string)
    ensures FirstOf(list, id).Some? <==> exists s | s in list :: s.id == id
    ensures FirstOf(list, id).Some? ==> FirstOf(list, id).value in list && FirstOf(list, id).value.id == id
  {
    if list != [] {
      var before, last := list[..|list| - 1], list[|list| - 1];
      FirstOfMeans(before, id);
      assert list == before + [last];
    }
  }

  lemma {:induction false} FirstListedMeans(listing: Listing, id: string)
    ensures FirstListed(listing, id).Some? <==> exists e | e in listing :: e.1.id == id
    ensures FirstListed(listing, id).Some? ==> FirstListed(listing, id).value.id == id && StationsOf(listing, id) != []
    ensures FirstListed(listing, id).Some? ==> exists e | e in listing :: e.1 == FirstListed(listing, id).value
  {
    if listing != [] {
      var before, last := listing[..|listing| - 1], listing[|listing| - 1];
      FirstListedMeans(before, id);
      assert listing == before + [last];
    }
  }

  /** The ids in the copy are those in the containers. */
  lemma {:induction false} AgreementOfIds(keyVal: map<string, Entry>, c: Containers, id: string)
    requires Agrees(keyVal, c) && Filed(c)
    ensures id in keyVal <==> Registered(c, id)
  {
    assert Lookup(keyVal, id) == EntryFor(c, id);
    EntryInIndex(c.notify, id);
    EntryInIndex(c.data, id);
    FirstOfMeans(c.hints, id);
  }

  lemma {:induction false} EntryInIndex(index: Index, id: string)
    ensures EntryIn(index, id).Some? <==> InIndex(index, id)
  {
    FirstOfMeans(index.all, id);
    FirstListedMeans(index.stations, id);
  }

  lemma {:induction false} WithoutMeans(list: seq<Subscriber>, id: string)
    ensures forall s :: s in Without(list, id) <==> s in list && s.id != id
  {
    if list != [] {
      var before, last := list[..|list| - 1], list[|list| - 1];
      WithoutMeans(before, id);
      assert list == before + [last];
    }
  }

  lemma {:induction false} WithoutListedMeans(listing: Listing, id: string)
    ensures forall e :: e in WithoutListed(listing, id) <==> e in listing && e.1.id != id
    ensures Sorted(listing) ==> Sorted(WithoutListed(listing, id))
  {
    if listing != [] {
      var before, last := listing[..|listing| - 1], listing[|listing| - 1];
      WithoutListedMeans(before, id);
      assert listing == before + [last];
    }
  }

  lemma {:induction false} WithoutAppend(a: seq<Subscriber>, b: seq<Subscriber>, id: string)
    ensures Without(a + b, id) == Without(a, id) + Without(b, id)
    decreases |b|
  {
    if b == [] {
      assert a + b == a;
    } else {
      assert (a + b)[..|a + b| - 1] == a + b[..|b| - 1];
      WithoutAppend(a, b[..|b| - 1], id);
    }
  }

  lemma {:induction false} ListedAppend(a: Listing, b: Listing, id: string, station: int)
    ensures WithoutListed(a + b, id) == WithoutListed(a, id) + WithoutListed(b, id)
    ensures ListedAt(a + b, station) == ListedAt(a, station) + ListedAt(b, station)
    ensures StationsOf(a + b, id) == StationsOf(a, id) + StationsOf(b, id)
    ensures FirstListed(a + b, id) == if FirstListed(a, id).Some? then FirstListed(a, id) else FirstListed(b, id)
  {
    WithoutListedAppend(a, b, id);
    ListedAtAppend(a, b, station);
    StationsOfAppend(a, b, id);
    FirstListedAppend(a, b, id);
  }

  lemma {:induction false} WithoutListedAppend(a: Listing, b: Listing, id: string)
    ensures WithoutListed(a + b, id) == WithoutListed(a, id) + WithoutListed(b, id)
    decreases |b|
  {
    if b == [] {
      assert a + b == a;
    } else {
      assert (a + b)[..|a + b| - 1] == a + b[..|b| - 1];
      WithoutListedAppend(a, b[..|b| - 1], id);
    }
  }

  lemma {:induction false} ListedAtAppend(a: Listing, b: Listing, station: int)
    ensures ListedAt(a + b, station) == ListedAt(a, station) + ListedAt(b, station)
    decreases |b|
  {
    if b == [] {
      assert a + b == a;
    } else {
      assert (a + b)[..|a + b| - 1] == a + b[..|b| - 1];
      ListedAtAppend(a, b[..|b| - 1], station);
    }
  }

  lemma {:induction false} StationsOfAppend(a: Listing, b: Listing, id: string)
    ensures StationsOf(a + b, id) == StationsOf(a, id) + StationsOf(b, id)
    decreases |b|
  {
    if b == [] {
      assert a + b == a;
    } else {
      assert (a + b)[..|a + b| - 1] == a + b[..|b| - 1];
      StationsOfAppend(a, b[..|b| - 1], id);
    }
  }

  lemma {:induction false} FirstListedAppend(a: Listing, b: Listing, id: string)
    ensures FirstListed(a + b, id) == if FirstListed(a, id).Some? then FirstListed(a, id) else FirstListed(b, id)
    decreases |b|
  {
    if b == [] {
      assert a + b == a;
    } else {
      assert (a + b)[..|a + b| - 1] == a + b[..|b| - 1];
      FirstListedAppend(a, b[..|b| - 1], id);
    }
  }

  /** Other subscribers are not affected by a removal. */
  lemma {:induction false} WithoutKeepsOthers(list: seq<Subscriber>, id: string, other: string)
    requires id != other
    ensures FirstOf(Without(list, id), other) == FirstOf(list, other)
  {
    if list != [] {
      var before, last := list[..|list| - 1], list[|list| - 1];
      WithoutKeepsOthers(before, id, other);
      var w := Without(list, id);
      if last.id != id {
        assert w[..|w| - 1] == Without(before, id) && w[|w| - 1] == last;
      } else {
        assert w == Without(before, id);
      }
    }
  }

  lemma {:induction false} WithoutListedKeepsOthers(listing: Listing, id: string, other: string)
    requires id != other
    ensures FirstListed(WithoutListed(listing, id), other) == FirstListed(listing, other)
    ensures StationsOf(WithoutListed(listing, id), other) == StationsOf(listing, other)
  {
    if listing != [] {
      var before, last := listing[..|listing| - 1], listing[|listing| - 1];
      WithoutListedKeepsOthers(before, id, other);
      var w := WithoutListed(listing, id);
      if last.1.id != id {
        assert w[..|w| - 1] == WithoutListed(before, id) && w[|w| - 1] == last;
      } else {
        assert w == WithoutListed(before, id);
      }
    }
  }

  /** Nothing of the removed subscriber is left. */
  lemma {:induction false} WithoutGone(index: Index, id: string)
    ensures EntryIn(Removed(index, id), id) == None
  {
    WithoutMeans(index.all, id);
    WithoutListedMeans(index.stations, id);
    FirstOfMeans(Without(index.all, id), id);
    FirstListedMeans(WithoutListed(index.stations, id), id);
  }

  function Removed(index: Index, id: string): Index {
    Index(Without(index.all, id), WithoutListed(index.stations, id))
  }

  /** What is left of the containers when a subscriber is removed. */
  function RemovedFrom(c: Containers, id: string): Containers {
    Containers(Removed(c.notify, id), Removed(c.data, id), Without(c.hints, id))
  }

  lemma {:induction false} RemovalKeepsFiled(c: Containers, id: string)
    requires Filed(c)
    ensures Filed(RemovedFrom(c, id))
  {
    WithoutMeans(c.notify.all, id);
    WithoutMeans(c.data.all, id);
    WithoutMeans(c.hints, id);
    WithoutListedMeans(c.notify.stations, id);
    WithoutListedMeans(c.data.stations, id);
    WithoutDistinct(c.hints, id);
  }

  ghost predicate DistinctIds(list: seq<Subscriber>) {
    forall i, j | 0 <= i < j < |list| :: list[i].id != list[j].id
  }

  lemma {:induction false} WithoutDistinct(list: seq<Subscriber>, id: string)
    requires DistinctIds(list)
    ensures DistinctIds(Without(list, id))
  {
    if list != [] {
      var before, last := list[..|list| - 1], list[|list| - 1];
      WithoutDistinct(before, id);
      WithoutMeans(before, id);
      var w := Without(before, id);
      forall i | 0 <= i < |w| ensures w[i].id != last.id {
        assert w[i] in before;
      }
    }
  }

  lemma {:induction false} IndexWithoutKeepsOthers(index: Index, id: string, other: string)
    requires id != other
    ensures EntryIn(Removed(index, id), other) == EntryIn(index, other)
  {
    WithoutKeepsOthers(index.all, id, other);
    WithoutListedKeepsOthers(index.stations, id, other);
  }

  lemma {:induction false} RemovalEntries(c: Containers, id: string, other: string)
    requires Filed(c)
    ensures EntryFor(RemovedFrom(c, id), other) == if other == id then None else EntryFor(c, other)
  {
    hide Filed, EntryIn, FirstOf, Without, Removed, KindOf;
    if other == id {
      WithoutGone(c.notify, id);
      WithoutGone(c.data, id);
      WithoutMeans(c.hints, id);
      FirstOfMeans(Without(c.hints, id), id);
    } else {
      IndexWithoutKeepsOthers(c.notify, id, other);
      IndexWithoutKeepsOthers(c.data, id, other);
      WithoutKeepsOthers(c.hints, id, other);
    }
  }

  /** The row taken away, or with an empty id all rows. */
  function DeletedFrom(keyVal: map<string, Entry>, id: string): map<string, Entry> {
    if id == "" then map[] else keyVal - {id}
  }

  ghost predicate NobodyRegistered(c: Containers) {
    c.notify == Index([], []) && c.data == Index([], []) && c.hints == []
  }

  /** A removal keeps the copy in agreement exactly when the id is not empty or nobody is registered: the
      delete statement leaves out the key of an empty id and takes every row. */
  lemma {:induction false} RemovalAgreesIff(keyVal: map<string, Entry>, c: Containers, id: string)
    requires Filed(c) && Agrees(keyVal, c)
    ensures Agrees(DeletedFrom(keyVal, id), RemovedFrom(c, id)) <==> id != "" || NobodyRegistered(c)
  {
    if id != "" {
      forall other ensures Lookup(DeletedFrom(keyVal, id), other) == EntryFor(RemovedFrom(c, id), other) {
        RemovalEntries(c, id, other);
        assert Lookup(keyVal, other) == EntryFor(c, other);
      }
    } else {
      EmptyIdRemoval(keyVal, c);
    }
  }

  lemma {:induction false} EmptyIdRemoval(keyVal: map<string, Entry>, c: Containers)
    requires Filed(c)
    ensures Agrees(map[], RemovedFrom(c, "")) <==> NobodyRegistered(c)
  {
    NoKindForEmptyId();
    if NobodyRegistered(c) {
      forall other ensures Lookup(map[], other) == EntryFor(RemovedFrom(c, ""), other) {
      }
    } else {
      var id := SomeRegistered(c);
      RemovalEntries(c, "", id);
      assert Lookup(map[], id) != EntryFor(RemovedFrom(c, ""), id);
    }
  }

  lemma {:induction false} NoKindForEmptyId()
    ensures KindOf("") == FormatError
  {
  }

  lemma {:induction false} SomeRegistered(c: Containers) returns (id: string)
    requires Filed(c) && !NobodyRegistered(c)
    ensures id != "" && EntryFor(c, id).Some?
  {
    NoKindForEmptyId();
    if c.hints != [] {
      id := c.hints[0].id;
      FirstOfMeans(c.hints, id);
      assert c.hints[0] in c.hints;
    } else if c.notify != Index([], []) {
      id := SomeInIndex(c.notify, DataNotify);
    } else {
      id := SomeInIndex(c.data, Data);
    }
  }

  lemma {:induction false} SomeInIndex(index: Index, kind: Kind) returns (id: string)
    requires IndexFiled(index, kind) && index != Index([], [])
    ensures KindOf(id) == Ok(kind) && EntryIn(index, id).Some?
  {
    if index.all != [] {
      assert index.all[0] in index.all;
      id := index.all[0].id;
    } else {
      assert index.stations != [];
      assert index.stations[0] in index.stations;
      id := index.stations[0].1.id;
    }
    EntryInIndex(index, id);
  }

  // --------------------------------------------------------------------------- additions

  /** Where a multimap puts a new element: behind all with a key that is not greater. */
  function UpperBound(listing: Listing, station: int): (n: nat)
    ensures n <= |listing|
    ensures forall i | 0 <= i < n :: listing[i].0 <= station
    ensures n < |listing| ==> listing[n].0 > station
  {
    UpperBoundFrom(listing, station, 0)
  }

  function UpperBoundFrom(listing: Listing, station: int, n: nat): (m: nat)
    requires n <= |listing|
    ensures n <= m <= |listing|
    ensures forall i | n <= i < m :: listing[i].0 <= station
    ensures m < |listing| ==> listing[m].0 > station
    decreases |listing| - n
  {
    if n < |listing| && listing[n].0 <= station then UpperBoundFrom(listing, station, n + 1) else n
  }

  function Inserted(listing: Listing, station: int, p: Subscriber): Listing {
    var n := UpperBound(listing, station);
    listing[..n] + [(station, p)] + listing[n..]
  }

  lemma {:induction false} InsertedSorted(listing: Listing, station: int, p: Subscriber)
    requires Sorted(listing)
    ensures Sorted(Inserted(listing, station, p))
    ensures forall e :: e in Inserted(listing, station, p) <==> e in listing || e == (station, p)
  {
    var n := UpperBound(listing, station);
    assert listing == listing[..n] + listing[n..];
    forall i | n <= i < |listing| ensures listing[i].0 > station {
      if i > n {
        assert listing[n].0 <= listing[i].0;
      }
    }
    SplicedSorted(listing, n, station, p);
  }

  lemma {:induction false} SplicedSorted(listing: Listing, n: nat, station: int, p: Subscriber)
    requires Sorted(listing) && n <= |listing|
    requires forall i | 0 <= i < n :: listing[i].0 <= station
    requires forall i | n <= i < |listing| :: listing[i].0 > station
    ensures Sorted(listing[..n] + [(station, p)] + listing[n..])
  {
    var r := listing[..n] + [(station, p)] + listing[n..];
    forall i, j | 0 <= i < j < |r| ensures r[i].0 <= r[j].0 {
      assert r[i] == if i < n then listing[i] else if i == n then (station, p) else listing[i - 1];
      assert r[j] == if j < n then listing[j] else if j == n then (station, p) else listing[j - 1];
    }
  }

  lemma {:induction false} OneListed(station: int, p: Subscriber, id: string, at: int)
    ensures ListedAt([(station, p)], at) == if at == station then [p] else []
    ensures StationsOf([(station, p)], id) == if p.id == id then [station] else []
    ensures FirstListed([(station, p)], id) == if p.id == id then Some(p) else None
    ensures WithoutListed([(station, p)], id) == if p.id == id then [] else [(station, p)]
  {
    var one: Listing := [(station, p)];
    assert one[..0] == [];
  }

  lemma {:induction false} NoneAt(listing: Listing, station: int)
    requires forall e | e in listing :: e.0 != station
    ensures ListedAt(listing, station) == []
  {
    if listing != [] {
      assert listing[|listing| - 1] in listing;
      NoneAt(listing[..|listing| - 1], station);
    }
  }

  /** An inserted element splits the scans. */
  lemma {:induction false} InsertedScans(a: Listing, station: int, p: Subscriber, b: Listing, id: string, at: int)
    ensures ListedAt(a + [(station, p)] + b, at) ==
              ListedAt(a, at) + (if at == station then [p] else []) + ListedAt(b, at)
    ensures StationsOf(a + [(station, p)] + b, id) ==
              StationsOf(a, id) + (if p.id == id then [station] else []) + StationsOf(b, id)
    ensures FirstListed(a + [(station, p)] + b, id) ==
              if FirstListed(a, id).Some? then FirstListed(a, id) else if p.id == id then Some(p)
                  else FirstListed(b, id)
  {
    hide ListedAt, StationsOf, FirstListed;
    ListedAppend(a + [(station, p)], b, id, at);
    ListedAppend(a, [(station, p)], id, at);
    OneListed(station, p, id, at);
  }

  lemma {:induction false} NoneBehind(listing: Listing, station: int)
    requires Sorted(listing)
    ensures ListedAt(listing[UpperBound(listing, station)..], station) == []
  {
    var n := UpperBound(listing, station);
    var b := listing[n..];
    forall e | e in b ensures e.0 != station {
      var i :| 0 <= i < |b| && b[i] == e;
      assert listing[n].0 <= listing[n + i].0;
    }
    NoneAt(b, station);
  }

  /** The new registration is delivered to behind the earlier ones for its station, and no other station is
      affected. */
  lemma {:induction false} DeliveryAfterRegistration(listing: Listing, station: int, p: Subscriber, at: int)
    requires Sorted(listing)
    ensures ListedAt(Inserted(listing, station, p), at) == ListedAt(listing, at) + if at == station then [p] else []
  {
    hide ListedAt, UpperBound, Sorted;
    var n := UpperBound(listing, station);
    var a, b := listing[..n], listing[n..];
    assert listing == a + b && Inserted(listing, station, p) == a + [(station, p)] + b;
    ListedAppend(a, b, "", at);
    InsertedScans(a, station, p, b, "", at);
    NoneBehind(listing, station);
  }

  /** A new registration leaves the others' entries alone. */
  lemma {:induction false} InsertedOthers(listing: Listing, station: int, p: Subscriber, id: string)
    ensures id != p.id ==> FirstListed(Inserted(listing, station, p), id) == FirstListed(listing, id)
    ensures id != p.id ==> StationsOf(Inserted(listing, station, p), id) == StationsOf(listing, id)
    ensures id == p.id ==> FirstListed(Inserted(listing, station, p), id).Some?
  {
    hide ListedAt, UpperBound, StationsOf, FirstListed;
    var n := UpperBound(listing, station);
    var a, b := listing[..n], listing[n..];
    assert listing == a + b && Inserted(listing, station, p) == a + [(station, p)] + b;
    ListedAppend(a, b, id, 0);
    InsertedScans(a, station, p, b, id, 0);
    assert StationsOf(a, id) + [] + StationsOf(b, id) == StationsOf(a, id) + StationsOf(b, id);
  }

  /** After a removal the others are delivered to as before. */
  lemma {:induction false} DeliveryAfterRemoval(listing: Listing, id: string, at: int)
    ensures ListedAt(WithoutListed(listing, id), at) == Without(ListedAt(listing, at), id)
  {
    if listing != [] {
      var before, last := listing[..|listing| - 1], listing[|listing| - 1];
      DeliveryAfterRemoval(before, id, at);
      var one: Listing := if last.1.id == id then [] else [last];
      ListedAppend(WithoutListed(before, id), one, id, at);
      OneListed(last.0, last.1, id, at);
      var last' := if last.0 == at then [last.1] else [];
      WithoutAppend(ListedAt(before, at), last', id);
      OneWithout(last.1, id);
    }
  }

  lemma {:induction false} OneWithout(p: Subscriber, id: string)
    ensures Without([p], id) == if p.id == id then [] else [p]
    ensures FirstOf([p], id) == if p.id == id then Some(p) else None
  {
    assert [p][..0] == [];
  }

  lemma {:induction false} FirstOfAppend(list: seq<Subscriber>, p: Subscriber, id: string)
    ensures FirstOf(list + [p], id) == if FirstOf(list, id).Some? then FirstOf(list, id) else FirstOf([p], id)
  {
    assert (list + [p])[..|list|] == list;
    OneWithout(p, id);
  }

  function WithAll(index: Index, p: Subscriber): Index { index.(all := index.all + [p]) }

  function WithStation(index: Index, station: int, p: Subscriber): Index {
    index.(stations := Inserted(index.stations, station, p))
  }

  /** A registration has an entry, and leaves the entries of all others alone. */
  lemma {:induction false} AdditionEntries(index: Index, station: Option<int>, p: Subscriber, id: string)
    ensures var index' := if station.None? then WithAll(index, p) else WithStation(index, station.value, p);
            if id == p.id then EntryIn(index', id).Some? else EntryIn(index', id) == EntryIn(index, id)
  {
    if station.None? {
      FirstOfAppend(index.all, p, id);
      OneWithout(p, id);
    } else {
      InsertedOthers(index.stations, station.value, p, id);
    }
  }

  // ------------------------------------------------------------------- removals of many at once

  function Keep(list: seq<Subscriber>, ids: set<string>): seq<Subscriber> {
    if list == [] then []
    else var before, last := list[..|list| - 1], list[|list| - 1];
         Keep(before, ids) + if last.id in ids then [] else [last]
  }

  function KeepListed(listing: Listing, ids: set<string>): Listing {
    if listing == [] then []
    else var before, last := listing[..|listing| - 1], listing[|listing| - 1];
         KeepListed(before, ids) + if last.1.id in ids then [] else [last]
  }

  /** In order, the entries of all whose id is not among the given ones. */
  function Remaining(c: Containers, ids: set<string>): Containers {
    Containers(Index(Keep(c.notify.all, ids), KeepListed(c.notify.stations, ids)),
               Index(Keep(c.data.all, ids), KeepListed(c.data.stations, ids)), Keep(c.hints, ids))
  }

  lemma {:induction false} KeepWithout(list: seq<Subscriber>, ids: set<string>, id: string)
    ensures Without(Keep(list, ids), id) == Keep(list, ids + {id})
  {
    if list != [] {
      hide Without;
      var before, last := list[..|list| - 1], list[|list| - 1];
      KeepWithout(before, ids, id);
      if last.id !in ids {
        WithoutAppend(Keep(before, ids), [last], id);
        OneWithout(last, id);
        assert Keep(list, ids) == Keep(before, ids) + [last];
        assert Keep(list, ids + {id}) == Keep(before, ids + {id}) + Without([last], id);
      } else {
        assert Keep(list, ids) == Keep(before, ids) && Keep(list, ids + {id}) == Keep(before, ids + {id});
      }
    } else {
      assert Without([], id) == [];
    }
  }

  lemma {:induction false} KeepAll(list: seq<Subscriber>)
    ensures Keep(list, {}) == list
  {
    if list != [] {
      KeepAll(list[..|list| - 1]);
      assert list == list[..|list| - 1] + [list[|list| - 1]];
    }
  }

  lemma {:induction false} KeepAllListed(listing: Listing)
    ensures KeepListed(listing, {}) == listing
  {
    if listing != [] {
      KeepAllListed(listing[..|listing| - 1]);
      assert listing == listing[..|listing| - 1] + [listing[|listing| - 1]];
    }
  }

  lemma {:induction false} KeepListedWithout(listing: Listing, ids: set<string>, id: string)
    ensures WithoutListed(KeepListed(listing, ids), id) == KeepListed(listing, ids + {id})
  {
    if listing == [] {
    } else {
      var before, last := listing[..|listing| - 1], listing[|listing| - 1];
      KeepListedWithout(before, ids, id);
      LastKept(listing, ids);
      LastKept(listing, ids + {id});
      hide WithoutListed, KeepListed;
      if last.1.id !in ids {
        WithoutListedAppend(KeepListed(before, ids), [last], id);
        OneListedWithout(last, id);
        assert KeepListed(before, ids + {id}) + [] == KeepListed(before, ids + {id});
      }
    }
  }

  lemma {:induction false} LastKept(listing: Listing, ids: set<string>)
    requires listing != []
    ensures var before, last := listing[..|listing| - 1], listing[|listing| - 1];
            KeepListed(listing, ids) ==
            if last.1.id in ids then KeepListed(before, ids) else KeepListed(before, ids) + [last]
  {
  }

  lemma {:induction false} OneListedWithout(e: (int, Subscriber), id: string)
    ensures WithoutListed([e], id) == if e.1.id == id then [] else [e]
  {
    assert [e][..0] == [];
  }

  lemma {:induction false} RemainingWithout(c: Containers, ids: set<string>, id: string)
    ensures RemovedFrom(Remaining(c, ids), id) == Remaining(c, ids + {id})
    ensures Remaining(c, {}) == c
  {
    KeepWithout(c.notify.all, ids, id);
    KeepListedWithout(c.notify.stations, ids, id);
    KeepWithout(c.data.all, ids, id);
    KeepListedWithout(c.data.stations, ids, id);
    KeepWithout(c.hints, ids, id);
    KeepAll(c.notify.all);
    KeepAllListed(c.notify.stations);
    KeepAll(c.data.all);
    KeepAllListed(c.data.stations);
    KeepAll(c.hints);
  }

  lemma {:induction false} NoneRemoved(list: seq<Subscriber>, id: string)
    requires forall s | s in list :: s.id != id
    ensures Without(list, id) == list
  {
    if list != [] {
      var before, last := list[..|list| - 1], list[|list| - 1];
      assert last in list && list == before + [last];
      NoneRemoved(before, id);
    }
  }

  lemma {:induction false} NoneListedRemoved(listing: Listing, id: string)
    requires forall e | e in listing :: e.1.id != id
    ensures WithoutListed(listing, id) == listing
  {
    if listing != [] {
      var before, last := listing[..|listing| - 1], listing[|listing| - 1];
      assert last in listing && listing == before + [last];
      NoneListedRemoved(before, id);
    }
  }

  lemma {:induction false} OneRemoved(list: seq<Subscriber>, i: nat, id: string)
    requires i < |list| && list[i].id == id
    ensures Without(list[..i] + list[i + 1..], id) == Without(list, id)
  {
    hide Without;
    assert list == list[..i] + [list[i]] + list[i + 1..];
    WithoutAppend(list[..i] + [list[i]], list[i + 1..], id);
    WithoutAppend(list[..i], [list[i]], id);
    WithoutAppend(list[..i], list[i + 1..], id);
    OneWithout(list[i], id);
  }

  lemma {:induction false} OneListedRemoved(listing: Listing, i: nat, id: string)
    requires i < |listing| && listing[i].1.id == id
    ensures WithoutListed(listing[..i] + listing[i + 1..], id) == WithoutListed(listing, id)
  {
    hide WithoutListed, ListedAt, StationsOf, FirstListed;
    var a, one, b := listing[..i], [listing[i]], listing[i + 1..];
    assert listing == a + one + b;
    WithoutListedAppend(a + one, b, id);
    WithoutListedAppend(a, one, id);
    WithoutListedAppend(a, b, id);
    OneListed(listing[i].0, listing[i].1, id, 0);
    assert one == [(listing[i].0, listing[i].1)];
  }

  // --------------------------------------------------------------------------- the loops

  /** After each erasure the search starts again from the beginning. */
  method RemoveFromList(list: seq<Subscriber>, id: string) returns (rest: seq<Subscriber>)
    ensures rest == Without(list, id)
  {
    rest := list;
    var it := 0;
    while it != |rest|
      invariant it <= |rest| && Without(rest, id) == Without(list, id)
      invariant forall k | 0 <= k < it :: rest[k].id != id
      decreases |rest|, |rest| - it
    {
      if rest[it].id == id {
        OneRemoved(rest, it, id);
        rest := rest[..it] + rest[it + 1..];
        it := 0;
      } else {
        it := it + 1;
      }
    }
    NoneRemoved(rest, id);
  }

  /** An iterator steps on before the element behind it is erased. */
  method RemoveFromListing(listing: Listing, id: string) returns (rest: Listing)
    ensures rest == WithoutListed(listing, id)
  {
    rest := listing;
    var it := 0;
    while it != |rest|
      invariant it <= |rest| && WithoutListed(rest, id) == WithoutListed(listing, id)
      invariant forall k | 0 <= k < it :: rest[k].1.id != id
      decreases |rest| - it
    {
      if rest[it].1.id == id {
        OneListedRemoved(rest, it, id);
        rest := rest[..it] + rest[it + 1..];
      } else {
        it := it + 1;
      }
    }
    NoneListedRemoved(rest, id);
  }

  /** Only the first hint subscriber with the id is erased; there is no second. */
  method RemoveHint(hints: seq<Subscriber>, id: string) returns (rest: seq<Subscriber>)
    requires DistinctIds(hints)
    ensures rest == Without(hints, id)
  {
    for it := 0 to |hints|
      invariant forall k | 0 <= k < it :: hints[k].id != id
    {
      if hints[it].id == id {
        rest := hints[..it] + hints[it + 1..];
        OneRemoved(hints, it, id);
        NoneRemoved(rest, id);
        return;
      }
    }
    NoneRemoved(hints, id);
    rest := hints;
  }

  /** What is written about a subscriber: the list first, then its stations in the order of the multimap. */
  method FindEntry(index: Index, id: string) returns (entry: Option<Entry>)
    ensures entry == EntryIn(index, id)
  {
    for i := 0 to |index.all|
      invariant FirstOf(index.all[..i], id) == None
    {
      assert index.all[..i + 1][..i] == index.all[..i];
      if index.all[i].id == id {
        FirstOfPrefix(index.all, i + 1, id);
        return Some(Entry(index.all[i], AllStations));
      }
    }
    assert index.all[..|index.all|] == index.all;
    var sub: Option<Subscriber> := None;
    var ids: seq<int> := [];
    for i := 0 to |index.stations|
      invariant sub == FirstListed(index.stations[..i], id)
      invariant ids == StationsOf(index.stations[..i], id)
    {
      assert index.stations[..i + 1][..i] == index.stations[..i];
      if index.stations[i].1.id == id {
        if sub.None? {
          sub := Some(index.stations[i].1);
        }
        ids := ids + [index.stations[i].0];
      }
    }
    assert index.stations[..|index.stations|] == index.stations;
    entry := if sub.Some? then Some(Entry(sub.value, Listed(ids))) else None;
  }

  lemma {:induction false} FirstOfPrefix(list: seq<Subscriber>, n: nat, id: string)
    requires n <= |list| && FirstOf(list[..n], id).Some?
    ensures FirstOf(list, id) == FirstOf(list[..n], id)
    decreases |list|
  {
    if n < |list| {
      assert list[..|list| - 1][..n] == list[..n];
      FirstOfPrefix(list[..|list| - 1], n, id);
    } else {
      assert list[..n] == list;
    }
  }

  /** The subscribers a message about the station goes to: each that listens to all stations, then each
      registration for this one. */
  method ForAllSubscribers(index: Index, station: int) returns (called: seq<Subscriber>)
    requires Sorted(index.stations)
    ensures called == index.all + ListedAt(index.stations, station)
  {
    called := [];
    for i := 0 to |index.all|
      invariant called == index.all[..i]
    {
      called := called + [index.all[i]];
    }
    assert index.all[..|index.all|] == index.all;
    var listed := ForListed(index.stations, station);
    called := called + listed;
  }

  /** The registrations for the station, found by its bounds in the multimap. */
  method ForListed(listing: Listing, station: int) returns (called: seq<Subscriber>)
    requires Sorted(listing)
    ensures called == ListedAt(listing, station)
  {
    called := [];
    var it := LowerBound(listing, station);
    NoneAt(listing[..it], station);
    if it != |listing| {
      var end := UpperBound(listing, station);
      BoundsInOrder(listing, station, it, end);
      ghost var first := it;
      while it != end
        invariant first <= it <= end && called == ListedAt(listing[..it], station)
      {
        assert listing[..it + 1][..it] == listing[..it];
        called := called + [listing[it].1];
        it := it + 1;
      }
      NoneBehind(listing, station);
    }
    Rejoined(listing, it, station);
  }

  lemma {:induction false} Rejoined(listing: Listing, n: nat, station: int)
    requires n <= |listing| && ListedAt(listing[n..], station) == []
    ensures ListedAt(listing, station) == ListedAt(listing[..n], station)
  {
    ListedAppend(listing[..n], listing[n..], "", station);
    assert listing == listing[..n] + listing[n..];
  }

  method LowerBound(listing: Listing, station: int) returns (n: nat)
    ensures n <= |listing|
    ensures forall i | 0 <= i < n :: listing[i].0 < station
    ensures n < |listing| ==> listing[n].0 >= station
  {
    n := 0;
    while n < |listing| && listing[n].0 < station
      invariant n <= |listing| && forall i | 0 <= i < n :: listing[i].0 < station
    {
      n := n + 1;
    }
  }

  lemma {:induction false} BoundsInOrder(listing: Listing, station: int, first: nat, end: nat)
    requires Sorted(listing) && first <= |listing| && end == UpperBound(listing, station)
    requires forall i | 0 <= i < first :: listing[i].0 < station
    requires first < |listing| ==> listing[first].0 >= station
    ensures first <= end && forall i | first <= i < end :: listing[i].0 == station
  {
    forall i | first <= i < end ensures listing[i].0 == station {
      if first < i {
        assert listing[first].0 <= listing[i].0;
      }
    }
  }

  // ------------------------------------------------------------------------------ new ids

  const COUNT_MAX := 1000

  function ServiceName(kind: Kind): string {
    match kind
    case DataNotify => "datanotify"
    case Data => "data"
    case Hint => "kvHint"
  }

  function IdText(kind: Kind, stamp: string, count: nat): string {
    ServiceName(kind) + "_" + stamp + "_" + Decimal(count)
  }

  /** The type can be read off a new id. */
  lemma {:induction false} NewIdHasKind(kind: Kind, stamp: string, count: nat)
    ensures KindOf(IdText(kind, stamp, count)) == Ok(kind)
  {
    var name, id := ServiceName(kind), IdText(kind, stamp, count);
    assert id[..|name|] == name && id[|name|] == '_' && '_' !in name;
    FindChar(id, '_', |name|);
    assert Find(id, "_") == |name|;
    TrimPlain(name);
  }

  // ---------------------------------------------------------------------------- the collection

  class KvSubscriberCollection {
    var subscribers: set<string>
    var notify: Index
    var data: Index
    var hints: seq<Subscriber>
    var keyVal: map<string, Entry>

    constructor ()
      ensures Valid() && NobodyRegistered(Contents())
    {
      subscribers, notify, data, hints, keyVal := {}, Index([], []), Index([], []), [], map[];
      new;
      assert Filed(Contents());
    }

    /** What a restart has read, beside the copy it was read from. */
    constructor Rebuilt(m: Memory, keyVal: map<string, Entry>)
      ensures Contents() == m.c && subscribers == m.subscribers && this.keyVal == keyVal
    {
      subscribers, notify, data, hints, this.keyVal := m.subscribers, m.c.notify, m.c.data, m.c.hints, keyVal;
    }

    ghost function Contents(): Containers
      reads this
    {
      Containers(notify, data, hints)
    }

    /** Memory and the durable copy agree; the ids of hint subscribers are taken. */
    ghost predicate Valid()
      reads this
    {
      Filed(Contents()) && Agrees(keyVal, Contents()) && HintIdsTaken()
    }

    ghost predicate HintIdsTaken()
      reads this
    {
      forall s | s in hints :: s.id in subscribers
    }

    ghost predicate NoIdLeft(kind: Kind, stamp: string)
      reads this
    {
      forall count: nat | count < COUNT_MAX :: IdText(kind, stamp, count) in subscribers
    }

    /** The first of a thousand numbered ids that no known subscriber has. */
    method CreateSubscriberid(kind: Kind, stamp: string) returns (id: Option<string>)
      modifies this`subscribers
      ensures id.Some? ==>
                && id.value !in old(subscribers) && subscribers == old(subscribers) + {id.value}
                && exists count: nat | count < COUNT_MAX ::
                     && id.value == IdText(kind, stamp, count)
                     && forall c: nat | c < count :: IdText(kind, stamp, c) in old(subscribers)
      ensures id.None? ==> subscribers == old(subscribers) && NoIdLeft(kind, stamp)
    {
      var count: nat := 0;
      while count < COUNT_MAX
        invariant count <= COUNT_MAX && subscribers == old(subscribers)
        invariant forall c: nat | c < count :: IdText(kind, stamp, c) in subscribers
      {
        var subid := IdText(kind, stamp, count);
        if subid !in subscribers {
          subscribers := subscribers + {subid};
          return Some(subid);
        }
        count := count + 1;
      }
      id := None;
    }

    ghost function Of(kind: Kind): Index
      requires !kind.Hint?
      reads this
    {
      if kind.DataNotify? then notify else data
    }

    /** Puts a subscriber with its id into memory and into the copy. */
    method Store(kind: Kind, p: Subscriber, station: Option<int>)
      requires Valid() && !kind.Hint? && KindOf(p.id) == Ok(kind)
      modifies this`notify, this`data, this`keyVal
      ensures Valid() && Contents() == Added(old(Contents()), kind, station, p)
    {
      hide Filed, KindOf, EntryIn, WithAll, WithStation, Agrees;
      ghost var before := Contents();
      var index := if kind.DataNotify? then notify else data;
      index := if station.None? then WithAll(index, p) else WithStation(index, station.value, p);
      if kind.DataNotify? {
        notify := index;
      } else {
        data := index;
      }
      AddedFiled(before, kind, station, p);
      AddedEntries(before, kind, station, p);
      var entry := FindEntry(index, p.id);
      assert entry == EntryFor(Contents(), p.id);
      AgreementAfterWrite(keyVal, before, Contents(), p.id);
      keyVal := keyVal[p.id := entry.value];
    }

    /** A data or datanotify subscriber, for all stations or for one. Its id is made on its first
        registration; a further station keeps the id. When the multimap has no memory for the station a new id
        is taken back, and deleted from the copy too: which leaves copy and memory in agreement exactly if
        nobody was registered under it. The caller's subscriber is left with `id`, one taken back included: so a
        second try for a station is stored under an id that is no longer known to be taken. */
    method AddSubscriber(kind: Kind, p: Subscriber, station: Option<int>, stamp: string, memory: bool)
      returns (r: Option<Subscriber>, id: string, ghost takenBack: Option<string>)
      requires Valid() && !kind.Hint?
      requires station.Some? && p.id != "" ==> KindOf(p.id) == Ok(kind)
      modifies this
      ensures r.Some? ==>
                && Valid() && takenBack.None?
                && r.value == p.(id := r.value.id)
                && (if station.Some? && p.id != "" then r.value == p && subscribers == old(subscribers)
                    else r.value.id !in old(subscribers) && subscribers == old(subscribers) + {r.value.id})
                && Contents() == Added(old(Contents()), kind, station, r.value)
      ensures id == if r.Some? then r.value.id else if takenBack.Some? then takenBack.value else p.id
      ensures r.None? ==> Contents() == old(Contents()) && subscribers == old(subscribers)
      ensures r.None? ==> keyVal == if takenBack.Some? then old(keyVal) - {takenBack.value} else old(keyVal)
      ensures r.None? ==> NoIdLeft(kind, stamp) || (station.Some? && !memory)
      ensures takenBack.Some? ==> takenBack.value !in subscribers && p.id == "" && !memory
      ensures Valid() <==> takenBack.None? || !Registered(Contents(), takenBack.value)
    {
      hide Filed, KindOf, Agrees;
      takenBack := None;
      var p', created := p, false;
      if station.None? || p.id == "" {
        var subid := CreateSubscriberid(kind, stamp);
        if subid.None? {
          return None, p.id, None;
        }
        p', created := p.(id := subid.value), true;
        NewIdsHaveKind(kind, stamp);
      }
      id := p'.id;
      if station.Some? && !memory {
        if created {
          takenBack := Some(p'.id);
          TakingBackAgreesIff(keyVal, Contents(), p'.id);
          IdNotEmpty(p'.id);
          RemoveSubscriberid(p'.id);
        }
        return None, id, takenBack;
      }
      Store(kind, p', station);
      r := Some(p');
    }

    method AddKvHintSubscriber(p: Subscriber, stamp: string) returns (r: Option<Subscriber>)
      requires Valid()
      modifies this
      ensures Valid()
      ensures r.None? ==> Contents() == old(Contents()) && keyVal == old(keyVal) && subscribers == old(subscribers)
      ensures r.None? ==> NoIdLeft(Hint, stamp)
      ensures r.Some? ==>
                && r.value == p.(id := r.value.id) && r.value.id !in old(subscribers)
                && subscribers == old(subscribers) + {r.value.id}
                && Contents() == old(Contents()).(hints := old(hints) + [r.value])
    {
      var id := CreateSubscriberid(Hint, stamp);
      if id.None? {
        return None;
      }
      NewIdsHaveKind(Hint, stamp);
      var p' := p.(id := id.value);
      ghost var before, keyVal0 := Contents(), keyVal;
      hints := hints + [p'];
      HintAdded(before, p');
      keyVal := keyVal[p'.id := Entry(p', NoStations)];
      AgreementAfterWrite(keyVal0, before, Contents(), p'.id);
      r := Some(p');
    }

    method RemoveDataNotifySubscriber(id: string)
      modifies this`notify
      ensures notify == Removed(old(notify), id)
    {
      var list := RemoveFromList(notify.all, id);
      var listing := RemoveFromListing(notify.stations, id);
      notify := Index(list, listing);
    }

    method RemoveDataSubscriber(id: string)
      modifies this`data
      ensures data == Removed(old(data), id)
    {
      var list := RemoveFromList(data.all, id);
      var listing := RemoveFromListing(data.stations, id);
      data := Index(list, listing);
    }

    method RemoveSubscriberid(id: string)
      modifies this`subscribers, this`keyVal
      ensures subscribers == old(subscribers) - {id}
      ensures keyVal == if id in old(subscribers) then DeletedFrom(old(keyVal), id) else old(keyVal)
    {
      if id in subscribers {
        subscribers := subscribers - {id};
        RemoveSubscriberFromDb(id);
      }
    }

    /** Everywhere, and from the copy; twice from the copy when the id is known. */
    method DoRemoveSubscriber(id: string)
      requires Filed(Contents()) && HintIdsTaken()
      modifies this
      ensures Filed(Contents()) && HintIdsTaken()
      ensures Contents() == RemovedFrom(old(Contents()), id) && keyVal == DeletedFrom(old(keyVal), id)
      ensures subscribers == old(subscribers) - {id}
    {
      hide Filed, IndexFiled, Without, WithoutListed, Removed;
      HintsAreDistinct(Contents());
      RemovalKeepsFiled(Contents(), id);
      WithoutMeans(hints, id);
      RemoveDataNotifySubscriber(id);
      RemoveDataSubscriber(id);
      hints := RemoveHint(hints, id);
      RemoveSubscriberid(id);
      RemoveSubscriberFromDb(id);
    }

    method RemoveSubscriberFromDb(id: string)
      modifies this`keyVal
      ensures keyVal == DeletedFrom(old(keyVal), id)
    {
      if id != "" {
        keyVal := keyVal - {id};
      } else {
        keyVal := map[];
      }
    }

    /** A client's unsubscribe. */
    method RemoveSubscriber(id: string)
      requires Valid()
      modifies this
      ensures Contents() == RemovedFrom(old(Contents()), id)
      ensures Valid() <==> id != "" || NobodyRegistered(old(Contents()))
      ensures !Registered(Contents(), id)
    {
      RemovalAgreesIff(keyVal, Contents(), id);
      NobodyLeft(Contents(), id);
      DoRemoveSubscriber(id);
    }

    /** Those the dead-subscriber test picks, wherever they are listed, however often: all their entries go,
        all others stay in their order. The hint subscribers are not examined. */
    method RemoveDeadSubscribers(dead: set<Subscriber>)
      requires Valid()
      modifies this
      ensures Valid()
      ensures Contents() == Remaining(old(Contents()), DeadIn(old(notify), dead) + DeadIn(old(data), dead))
      ensures hints == old(hints)
    {
      var subList := CollectDead(notify, dead);
      var more := CollectDead(data, dead);
      DeadHaveKinds(Contents(), dead);
      HintsKept(Contents(), dead);
      JoinedIds(subList, more);
      RemoveAll(subList + more);
    }

    method RemoveAll(subList: seq<string>)
      requires Valid() && "" !in subList
      modifies this
      ensures Valid() && Contents() == Remaining(old(Contents()), Ids(subList, |subList|))
    {
      hide Filed, Agrees, KindOf, HintIdsTaken, DeletedFrom, RemovedFrom, Remaining;
      ghost var c := Contents();
      RemainingWithout(c, {}, "");
      for i := 0 to |subList|
        invariant Filed(Contents()) && HintIdsTaken() && Agrees(keyVal, Contents())
        invariant Contents() == Remaining(c, Ids(subList, i))
      {
        assert subList[i] in subList;
        RemovalAgreesIff(keyVal, Contents(), subList[i]);
        RemainingWithout(c, Ids(subList, i), subList[i]);
        DoRemoveSubscriber(subList[i]);
      }
    }

    method ForAllDataSubscribers(station: int) returns (called: seq<Subscriber>)
      requires Valid()
      ensures called == data.all + ListedAt(data.stations, station)
    {
      called := ForAllSubscribers(data, station);
    }

    method ForAllDataNotifySubscribers(station: int) returns (called: seq<Subscriber>)
      requires Valid()
      ensures called == notify.all + ListedAt(notify.stations, station)
    {
      called := ForAllSubscribers(notify, station);
    }
  }

  // ------------------------------------------------------------------ lemmas for the collection

  /** The first n ids of the list. */
  function Ids(list: seq<string>, n: nat): set<string>
    requires n <= |list|
  {
    if n == 0 then {} else Ids(list, n - 1) + {list[n - 1]}
  }

  lemma {:induction false} IdsMeans(list: seq<string>, n: nat, id: string)
    requires n <= |list|
    ensures id in Ids(list, n) <==> id in list[..n]
  {
    if n > 0 {
      IdsMeans(list, n - 1, id);
      assert list[..n] == list[..n - 1] + [list[n - 1]];
    }
  }

  lemma {:induction false} JoinedIds(a: seq<string>, b: seq<string>)
    ensures Ids(a + b, |a + b|) == (set id | id in a) + (set id | id in b)
  {
    var all := a + b;
    assert all[..|all|] == all;
    forall id ensures id in Ids(all, |all|) <==> id in a || id in b {
      IdsMeans(all, |all|, id);
    }
  }

  function DeadIn(index: Index, dead: set<Subscriber>): set<string> {
    (set s | s in index.all && s in dead :: s.id) + (set e | e in index.stations && e.1 in dead :: e.1.id)
  }

  /** The ids of the dead, once for each place they are listed. */
  method CollectDead(index: Index, dead: set<Subscriber>) returns (subList: seq<string>)
    ensures (set id | id in subList) == DeadIn(index, dead)
    ensures forall id | id in subList :: id in DeadIn(index, dead)
  {
    subList := [];
    for i := 0 to |index.all|
      invariant forall id :: id in subList <==> exists k | 0 <= k < i :: index.all[k] in dead && index.all[k].id == id
    {
      if index.all[i] in dead {
        subList := subList + [index.all[i].id];
      }
    }
    ghost var first := subList;
    for i := 0 to |index.stations|
      invariant forall id :: id in subList <==>
                  (id in first || exists k | 0 <= k < i :: index.stations[k].1 in dead && index.stations[k].1.id == id)
    {
      if index.stations[i].1 in dead {
        subList := subList + [index.stations[i].1.id];
      }
    }
  }

  lemma {:induction false} DeadHaveKinds(c: Containers, dead: set<Subscriber>)
    requires Filed(c)
    ensures forall id | id in DeadIn(c.notify, dead) + DeadIn(c.data, dead) ::
              id != "" && (KindOf(id) == Ok(DataNotify) || KindOf(id) == Ok(Data))
  {
    NoKindForEmptyId();
  }

  lemma {:induction false} HintsKept(c: Containers, dead: set<Subscriber>)
    requires Filed(c)
    ensures Keep(c.hints, DeadIn(c.notify, dead) + DeadIn(c.data, dead)) == c.hints
  {
    DeadHaveKinds(c, dead);
    NoneKept(c.hints, DeadIn(c.notify, dead) + DeadIn(c.data, dead));
  }

  lemma {:induction false} NoneKept(list: seq<Subscriber>, ids: set<string>)
    requires forall s | s in list :: s.id !in ids
    ensures Keep(list, ids) == list
  {
    if list != [] {
      var before, last := list[..|list| - 1], list[|list| - 1];
      assert last in list && list == before + [last];
      NoneKept(before, ids);
    }
  }

  lemma {:induction false} NewIdsHaveKind(kind: Kind, stamp: string)
    ensures forall count: nat :: KindOf(IdText(kind, stamp, count)) == Ok(kind)
  {
    forall count: nat ensures KindOf(IdText(kind, stamp, count)) == Ok(kind) {
      NewIdHasKind(kind, stamp, count);
    }
  }

  function Added(c: Containers, kind: Kind, station: Option<int>, p: Subscriber): Containers {
    match kind
    case DataNotify =>
      c.(notify := if station.None? then WithAll(c.notify, p) else WithStation(c.notify, station.value, p))
    case Data =>
      c.(data := if station.None? then WithAll(c.data, p) else WithStation(c.data, station.value, p))
    case Hint => c.(hints := c.hints + [p])
  }

  lemma {:induction false} AddedFiled(c: Containers, kind: Kind, station: Option<int>, p: Subscriber)
    requires Filed(c) && !kind.Hint? && KindOf(p.id) == Ok(kind)
    ensures Filed(Added(c, kind, station, p))
  {
    if station.Some? {
      InsertedSorted(if kind.DataNotify? then c.notify.stations else c.data.stations, station.value, p);
    }
  }

  lemma {:induction false} AddedEntries(c: Containers, kind: Kind, station: Option<int>, p: Subscriber)
    requires Filed(c) && !kind.Hint? && KindOf(p.id) == Ok(kind)
    ensures EntryFor(Added(c, kind, station, p), p.id).Some?
    ensures forall id | id != p.id :: EntryFor(Added(c, kind, station, p), id) == EntryFor(c, id)
  {
    hide WithAll, WithStation, EntryIn;
    var index := if kind.DataNotify? then c.notify else c.data;
    AdditionEntries(index, station, p, p.id);
    forall id | id != p.id ensures EntryFor(Added(c, kind, station, p), id) == EntryFor(c, id) {
      AdditionEntries(index, station, p, id);
    }
  }

  lemma {:induction false} HintAdded(c: Containers, p: Subscriber)
    requires Filed(c) && KindOf(p.id) == Ok(Hint) && forall s | s in c.hints :: s.id != p.id
    ensures Filed(Added(c, Hint, None, p))
    ensures EntryFor(Added(c, Hint, None, p), p.id) == Some(Entry(p, NoStations))
    ensures forall id | id != p.id :: EntryFor(Added(c, Hint, None, p), id) == EntryFor(c, id)
  {
    HintFiled(c, p);
    OwnHintEntry(c, p);
    hide Filed, KindOf, EntryFor, Added;
    forall id | id != p.id ensures EntryFor(Added(c, Hint, None, p), id) == EntryFor(c, id) {
      OtherHintEntry(c, p, id);
    }
  }

  lemma {:induction false} OwnHintEntry(c: Containers, p: Subscriber)
    requires KindOf(p.id) == Ok(Hint) && forall s | s in c.hints :: s.id != p.id
    ensures EntryFor(Added(c, Hint, None, p), p.id) == Some(Entry(p, NoStations))
  {
    FirstOfMeans(c.hints, p.id);
    hide FirstOf, EntryIn, KindOf;
    FirstOfAppend(c.hints, p, p.id);
    OneWithout(p, p.id);
  }

  lemma {:induction false} OtherHintEntry(c: Containers, p: Subscriber, id: string)
    requires id != p.id
    ensures EntryFor(Added(c, Hint, None, p), id) == EntryFor(c, id)
  {
    hide FirstOf, EntryIn, KindOf;
    FirstOfAppend(c.hints, p, id);
    OneWithout(p, id);
  }

  lemma {:induction false} HintFiled(c: Containers, p: Subscriber)
    requires Filed(c) && KindOf(p.id) == Ok(Hint) && forall s | s in c.hints :: s.id != p.id
    ensures Filed(Added(c, Hint, None, p))
  {
    hide KindOf;
  }

  lemma {:induction false} IdNotEmpty(id: string)
    requires KindOf(id).Ok?
    ensures id != ""
  {
    NoKindForEmptyId();
  }

  /** Deleting the row of one id from the copy alone keeps it right exactly if nobody is registered under it. */
  lemma {:induction false} TakingBackAgreesIff(keyVal: map<string, Entry>, c: Containers, id: string)
    requires Agrees(keyVal, c) && Filed(c)
    ensures Agrees(keyVal - {id}, c) <==> !Registered(c, id)
  {
    AgreementOfIds(keyVal, c, id);
    hide Registered, EntryFor, Filed;
    if id in keyVal {
      assert Lookup(keyVal - {id}, id) != Lookup(keyVal, id);
    } else {
      assert keyVal - {id} == keyVal;
    }
  }

  lemma {:induction false} AgreementAfterWrite(keyVal: map<string, Entry>, before: Containers, after: Containers,
                                               id: string)
    requires Agrees(keyVal, before) && EntryFor(after, id).Some?
    requires forall other | other != id :: EntryFor(after, other) == EntryFor(before, other)
    ensures Agrees(keyVal[id := EntryFor(after, id).value], after)
  {
    forall other ensures Lookup(keyVal[id := EntryFor(after, id).value], other) == EntryFor(after, other) {
      assert Lookup(keyVal, other) == EntryFor(before, other);
    }
  }

  lemma {:induction false} HintsAreDistinct(c: Containers)
    requires Filed(c)
    ensures DistinctIds(c.hints)
  {
  }

  lemma {:induction false} NobodyLeft(c: Containers, id: string)
    ensures !Registered(RemovedFrom(c, id), id)
  {
    WithoutMeans(c.notify.all, id);
    WithoutListedMeans(c.notify.stations, id);
    WithoutMeans(c.data.all, id);
    WithoutListedMeans(c.data.stations, id);
    WithoutMeans(c.hints, id);
  }
}
