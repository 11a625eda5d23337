/** The iterators over rejected messages and work statistics: pages of at most 25 rows, cut out of
    selects of one hour each, with a cursor into the last select carried from call to call. */
module Paging {
  import opened Requests
  import opened Strings

  const COUNT_MAX := 25
  const TIMESTEP := 60 * 60

  /** The rows with a < time <= b, in table order; a row without a time is in no interval. */
  function Between<T>(table: seq<T>, key: T -> Option<int>, a: int, b: int): seq<T> {
    if table == [] then []
    else (if key(table[0]).Some? && a < key(table[0]).value <= b then [table[0]]
        else []) + Between(table[1..], key, a, b)
  }

  /** `order by` the time column; rows without a time may stand anywhere. */
  ghost predicate Ordered<T>(table: seq<T>, key: T -> Option<int>) {
    forall i, j | 0 <= i < j < |table| && key(table[i]).Some? && key(table[j]).Some? ::
      key(table[i]).value <= key(table[j]).value
  }

  function Kept<T>(rows: seq<T>, keep: T -> bool): seq<T> {
    if rows == [] then [] else (if keep(rows[0]) then [rows[0]] else []) + Kept(rows[1..], keep)
  }

  lemma {:induction false} KeptAppend<T>(a: seq<T>, b: seq<T>, keep: T -> bool)
    ensures Kept(a + b, keep) == Kept(a, keep) + Kept(b, keep)
  {
    if a == [] {
      assert a + b == b;
    } else {
      assert (a + b)[0] == a[0] && (a + b)[1..] == a[1..] + b;
      KeptAppend(a[1..], b, keep);
      var head := if keep(a[0]) then [a[0]] else [];
      assert Kept(a, keep) == head + Kept(a[1..], keep) && Kept(a + b, keep) == head + Kept(a[1..] + b, keep);
      Regroup(head, Kept(a[1..], keep), Kept(b, keep));
    }
  }

  /** The rows in the interval: their time is set, and within it. */
  lemma {:induction false} BetweenMeans<T>(table: seq<T>, key: T -> Option<int>, a: int, b: int, row: T)
    ensures row in Between(table, key, a, b) <==> row in table && key(row).Some? && a < key(row).value <= b
  {
    if table != [] {
      BetweenMeans(table[1..], key, a, b, row);
      assert table == [table[0]] + table[1..];
    }
  }

  lemma {:induction false} BetweenNone<T>(table: seq<T>, key: T -> Option<int>, a: int, b: int)
    requires b <= a || forall k | 0 <= k < |table| && key(table[k]).Some? :: b < key(table[k]).value
    ensures Between(table, key, a, b) == []
  {
    if table != [] {
      BetweenNone(table[1..], key, a, b);
    }
  }

  /** The row itself, if it is in the interval. */
  function If<T>(row: T, key: T -> Option<int>, a: int, b: int): seq<T> {
    if key(row).Some? && a < key(row).value <= b then [row] else []
  }

  lemma {:induction false} FirstRow<T>(table: seq<T>, key: T -> Option<int>, a: int, b: int)
    requires table != []
    ensures Between(table, key, a, b) == If(table[0], key, a, b) + Between(table[1..], key, a, b)
  {
  }

  lemma {:induction false} Interleave<T>(a: seq<T>, b: seq<T>, c: seq<T>, d: seq<T>)
    requires b == [] || (a == [] && c == [])
    ensures (a + b) + (c + d) == (a + c) + (b + d)
  {
  }

  lemma {:induction false} RestIsLater<T>(table: seq<T>, key: T -> Option<int>, b: int)
    requires Ordered(table, key) && table != [] && key(table[0]).Some? && b < key(table[0]).value
    ensures Ordered(table[1..], key)
    ensures forall k | 0 <= k < |table[1..]| && key(table[1..][k]).Some? :: b < key(table[1..][k]).value
  {
  }

  /** Half-open intervals that meet lose and repeat nothing. */
  lemma {:induction false} BetweenSplit<T>(table: seq<T>, key: T -> Option<int>, a: int, b: int, c: int)
    requires Ordered(table, key) && a <= b <= c
    ensures Between(table, key, a, c) == Between(table, key, a, b) + Between(table, key, b, c)
  {
    if table != [] {
      var row, rest := table[0], table[1..];
      BetweenSplit(rest, key, a, b, c);
      if key(row).Some? && b < key(row).value {
        RestIsLater(table, key, b);
        BetweenNone(rest, key, a, b);
      }
      hide Ordered;
      WithFirstRow(table, key, a, b, c);
    }
  }

  lemma {:induction false} WithFirstRow<T>(table: seq<T>, key: T -> Option<int>, a: int, b: int, c: int)
    requires table != [] && a <= b <= c
    requires Between(table[1..], key, a, c) == Between(table[1..], key, a, b) + Between(table[1..], key, b, c)
    requires key(table[0]).Some? && b < key(table[0]).value ==> Between(table[1..], key, a, b) == []
    ensures Between(table, key, a, c) == Between(table, key, a, b) + Between(table, key, b, c)
  {
    FirstRow(table, key, a, b);
    FirstRow(table, key, b, c);
    FirstRow(table, key, a, c);
    IfSplit(table[0], key, a, b, c);
    hide Between, If;
    Interleave(If(table[0], key, a, b), If(table[0], key, b, c), Between(table[1..], key, a, b),
               Between(table[1..], key, b, c));
  }

  lemma {:induction false} IfSplit<T>(row: T, key: T -> Option<int>, a: int, b: int, c: int)
    requires a <= b <= c
    ensures If(row, key, a, c) == If(row, key, a, b) + If(row, key, b, c)
    ensures If(row, key, b, c) == [] || (If(row, key, a, b) == [] && key(row).Some? && b < key(row).value)
  {
  }

  lemma {:induction false} Regroup<T>(a: seq<T>, b: seq<T>, c: seq<T>)
    ensures a + (b + c) == (a + b) + c
  {
  }

  function Flatten<T>(pages: seq<seq<T>>): seq<T> {
    if pages == [] then [] else Flatten(pages[..|pages| - 1]) + pages[|pages| - 1]
  }

  /** Pages as the clients see them: none empty, and only the last one not full. */
  ghost predicate WellPaged<T>(pages: seq<seq<T>>) {
    && (forall k | 0 <= k < |pages| :: 0 < |pages[k]| <= COUNT_MAX)
    && (forall k | 0 <= k < |pages| - 1 :: |pages[k]| == COUNT_MAX)
  }

  /** What FindData and next promise: `page` comes off the front of `owed`, and it is full unless nothing is left. */
  ghost predicate TakesPage<T>(owed: seq<T>, page: seq<T>, rest: seq<T>) {
    owed == page + rest && |page| <= COUNT_MAX && (|page| < COUNT_MAX ==> rest == [])
  }

  // ------------------------------------------------------------------ the decoder filter

  /** The part of a decoder's name before the first slash. */
  function Prefix(decoder: string): string {
    if decoder == "" || decoder[0] == '/' then "" else [decoder[0]] + Prefix(decoder[1..])
  }

  /** What trimstr cuts off unless told otherwise. */
  const BLANKS := {' ', '\t', '\r', '\n'}

  /** A row passes when no decoder is named, or its decoder is among the named ones, blanks aside. */
  predicate Accepts(wanted: seq<string>, decoder: string) {
    wanted == [] || Trim(Prefix(decoder), BLANKS) in wanted
  }

  datatype Rejectdecode = Rejectdecode(message: string, tbtime: int, decoder: string, comment: string, fixed: bool)

  function TbTime(): Rejectdecode -> Option<int> { (row: Rejectdecode) => Some(row.tbtime) }

  function Accepted(wanted: seq<string>): Rejectdecode -> bool { (row: Rejectdecode) => Accepts(wanted, row.decoder) }

  class RejectedIteratorImpl {
    const table: seq<Rejectdecode>
    const selectOk: nat -> bool
    const toTime: int
    /** The named decoders without their surrounding blanks. */
    ghost const wanted: seq<string>

    var dbCon: bool
    var active: bool
    var dataList: seq<Rejectdecode>
    var dataIt: nat
    var currentEnd: int
    var decodeList: seq<string>
    var selects: nat

    ghost predicate Valid()
      reads this
    {
      && Ordered(table, TbTime())
      && dataIt <= |dataList|
      && |decodeList| == |wanted|
      && (forall k | 0 <= k < |wanted| :: Trim(decodeList[k], BLANKS) == wanted[k])
    }

    /** The rows still to be delivered: behind the cursor, and in the hours not yet selected. */
    ghost function Remaining(): seq<Rejectdecode>
      requires Valid()
      reads this
    {
      Behind() + Later(currentEnd)
    }

    ghost function Behind(): seq<Rejectdecode>
      requires Valid()
      reads this
    {
      Kept(dataList[dataIt..], Accepted(wanted))
    }

    ghost function Later(fromTime: int): seq<Rejectdecode> {
      Kept(Between(table, TbTime(), fromTime, toTime), Accepted(wanted))
    }

    constructor (table: seq<Rejectdecode>, fromTime: int, toTime: int, decodeList: seq<string>, selectOk: nat -> bool)
      requires Ordered(table, TbTime())
      ensures Valid() && this.dbCon && this.active && this.selectOk == selectOk
      ensures wanted == seq(|decodeList|, k requires 0 <= k < |decodeList| => Trim(decodeList[k], BLANKS))
      ensures Remaining() == Kept(Between(table, TbTime(), fromTime, toTime), Accepted(wanted))
    {
      this.table, this.selectOk, this.toTime, this.decodeList := table, selectOk, toTime, decodeList;
      wanted := seq(|decodeList|, k requires 0 <= k < |decodeList| => Trim(decodeList[k], BLANKS));
      dbCon, active, dataList, dataIt, currentEnd, selects := true, true, [], 0, fromTime, 0;
    }

    /** Compares a decoder with the list, whose entries it trims in place on the way. */
    method Matches(decoder: string) returns (r: bool)
      requires Valid()
      modifies `decodeList
      ensures Valid()
      ensures r <==> Accepts(wanted, decoder)
    {
      r := |decodeList| == 0;
      var it := 0;
      while it < |decodeList|
        invariant 0 <= it <= |decodeList| && Valid()
        invariant r <==> wanted == [] || Trim(Prefix(decoder), BLANKS) in wanted[..it]
      {
        TrimTwice(decodeList[it], BLANKS);
        decodeList := decodeList[it := Trim(decodeList[it], BLANKS)];
        if Trim(Prefix(decoder), BLANKS) == decodeList[it] {
          r := true;
          return;
        }
        it := it + 1;
      }
    }

    method FillData(toData: seq<Rejectdecode>) returns (data: seq<Rejectdecode>)
      requires Valid() && |toData| <= COUNT_MAX
      modifies `dataIt, `decodeList
      ensures Valid()
      ensures |data| <= COUNT_MAX && (|data| < COUNT_MAX ==> dataIt == |dataList|)
      ensures toData + old(Remaining()) == data + Remaining()
    {
      hide Later, Between, Accepts;
      data := toData;
      while |data| < COUNT_MAX && dataIt < |dataList|
        invariant Valid() && |data| <= COUNT_MAX
        invariant toData + old(Behind()) == data + Behind()
        decreases |dataList| - dataIt
      {
        assert dataList[dataIt..][1..] == dataList[dataIt + 1..];
        var accepted := Matches(dataList[dataIt].decoder);
        if accepted {
          data := data + [dataList[dataIt]];
        }
        dataIt := dataIt + 1;
      }
      Regroup(toData, old(Behind()), Later(currentEnd));
      Regroup(data, Behind(), Later(currentEnd));
    }

    method FindData() returns (ok: bool, data: seq<Rejectdecode>)
      requires Valid()
      modifies `dataIt, `decodeList, `dataList, `currentEnd, `selects
      ensures Valid()
      ensures ok ==> TakesPage(old(Remaining()), data, Remaining())
      ensures (forall k :: selectOk(k)) ==> ok
    {
      hide Remaining, Behind, Later, Between, Ordered;
      ghost var owed := Remaining();
      ok := true;
      data := FillData([]);
      if |data| >= COUNT_MAX {
        return;
      }
      if currentEnd >= toTime {
        AllSelected();
        return;
      }
      while currentEnd < toTime && |data| < COUNT_MAX
        invariant Valid() && currentEnd <= toTime && |data| <= COUNT_MAX
        invariant |data| < COUNT_MAX ==> dataIt == |dataList|
        invariant owed == data + Remaining()
        decreases toTime - currentEnd
      {
        Exhausted();
        var fromTime := currentEnd;
        currentEnd := currentEnd + TIMESTEP;
        if currentEnd > toTime {
          currentEnd := toTime;
        }
        dataList := [];
        dataIt := 0;
        if !selectOk(selects) {
          selects := selects + 1;
          ok := false;
          return;
        }
        selects := selects + 1;
        dataList := Between(table, TbTime(), fromTime, currentEnd);
        Loaded(fromTime);
        data := FillData(data);
      }
      if |data| < COUNT_MAX {
        AllSelected();
      }
    }

    lemma {:induction false} AllSelected()
      requires Valid() && dataIt == |dataList| && toTime <= currentEnd
      ensures Remaining() == []
    {
      BetweenNone(table, TbTime(), currentEnd, toTime);
    }

    lemma {:induction false} Exhausted()
      requires Valid() && dataIt == |dataList|
      ensures Remaining() == Later(currentEnd)
    {
    }

    /** With the rows of the next window in hand and the cursor at their start, nothing is lost. */
    lemma {:induction false} Loaded(fromTime: int)
      requires Valid() && fromTime <= currentEnd <= toTime
      requires dataIt == 0 && dataList == Between(table, TbTime(), fromTime, currentEnd)
      ensures Remaining() == Later(fromTime)
    {
      assert dataList[0..] == dataList;
      BetweenSplit(table, TbTime(), fromTime, currentEnd, toTime);
      KeptAppend(dataList, Between(table, TbTime(), currentEnd, toTime), Accepted(wanted));
    }

    /** The next page; false when everything is delivered, when a select fails, or after a destroy. */
    method Next() returns (more: bool, page: seq<Rejectdecode>)
      requires Valid()
      modifies `dataIt, `decodeList, `dataList, `currentEnd, `selects
      ensures Valid()
      ensures !dbCon || !active ==> !more && unchanged(this)
      ensures more ==> 0 < |page| && TakesPage(old(Remaining()), page, Remaining())
      ensures !more && dbCon && active && (forall k :: selectOk(k)) ==> old(Remaining()) == []
    {
      more, page := false, [];
      if !dbCon || !active {
        return;
      }
      var ok, data := FindData();
      if !ok || |data| == 0 {
        return;
      }
      more, page := true, data;
    }
  }

  /** A client that calls next until it returns false receives the accepted rows of the interval, in
      order and once each, in full pages but the last; a failing select cuts the rows off. */
  method Drain(it: RejectedIteratorImpl) returns (pages: seq<seq<Rejectdecode>>)
    requires it.Valid() && it.dbCon && it.active
    modifies it
    ensures WellPaged(pages) && Flatten(pages) <= old(it.Remaining())
    ensures (forall k :: it.selectOk(k)) ==> Flatten(pages) == old(it.Remaining())
  {
    pages := [];
    ghost var owed, rest := it.Remaining(), it.Remaining();
    hide Between, Kept;
    var more := true;
    while more
      invariant it.Valid() && it.dbCon && it.active
      invariant PagedSoFar(owed, pages, rest)
      invariant more ==> rest == it.Remaining()
      invariant !more && (forall k :: it.selectOk(k)) ==> rest == []
      decreases more, |rest|
    {
      var page;
      more, page := it.Next();
      if more {
        OnePageMore(owed, pages, rest, page, it.Remaining());
        pages, rest := pages + [page], it.Remaining();
      }
    }
  }

  /** The pages so far, followed by `rest`, are what was owed; rest is empty once a page was not full. */
  ghost predicate PagedSoFar<T>(owed: seq<T>, pages: seq<seq<T>>, rest: seq<T>) {
    && WellPaged(pages) && owed == Flatten(pages) + rest
    && (pages != [] && |pages[|pages| - 1]| < COUNT_MAX ==> rest == [])
  }

  lemma {:induction false} OnePageMore<T>(owed: seq<T>, pages: seq<seq<T>>, rest: seq<T>, page: seq<T>, rest': seq<T>)
    requires PagedSoFar(owed, pages, rest) && 0 < |page| && TakesPage(rest, page, rest')
    ensures PagedSoFar(owed, pages + [page], rest')
  {
    assert (pages + [page])[..|pages|] == pages;
    Regroup(Flatten(pages), page, rest');
  }
}
