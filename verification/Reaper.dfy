/** The reaper of src/kvServiced: objects handed to clients are collected when the client has let them go,
    or has not used them for their time to live. Times are seconds. */
module Reaper {

  /** What an object is told, besides the changes of its own fields. */
  datatype Event = PoaDeactivate | AddRef | RemoveRef | CleanUp

  /** What has been told so far, the last event outermost. */
  datatype Log = Nothing | Then(before: Log, event: Event)

  /** The fields of a ReaperBase at one moment. */
  datatype Use = Use(lastAccess: int, running: bool, active: bool, timedout: bool, timeToLive: int) {

    predicate Expired(now: int) { !running && now - lastAccess >= timeToLive }

    /** A client may still come back to it. */
    predicate Kept(now: int) { active && !Expired(now) }
  }

  const TIME_TO_LIVE := 60

  class ReaperBase {
    var lastAccess: int
    var running: bool
    var active: bool
    var timedout: bool
    var timeToLive: int
    ghost var log: Log

    constructor (now: int)
      ensures Now() == Use(now, false, true, false, TIME_TO_LIVE) && log == Nothing
    {
      lastAccess, running, active, timedout, timeToLive := now, false, true, false, TIME_TO_LIVE;
      log := Nothing;
    }

    ghost function Now(): Use
      reads this
    {
      Use(lastAccess, running, active, timedout, timeToLive)
    }

    /** The creator's reference is given up once, however often the object is deactivated. */
    method Deactivate()
      modifies this
      ensures Now() == old(Now()).(active := false)
      ensures log == if old(active) then Then(Then(old(log), PoaDeactivate), RemoveRef) else old(log)
    {
      if active {
        log := Then(log, PoaDeactivate);
        log := Then(log, RemoveRef);
        active := false;
      }
    }

    /** Called when a client call begins and when it ends. */
    method SetRunning(isRunning: bool, now: int) returns (isActive: bool)
      modifies this
      ensures Now() == old(Now()).(running := isRunning, lastAccess := now)
      ensures isActive == active && log == old(log)
    {
      lastAccess := now;
      isActive := active;
      running := isRunning;
    }

    method IsRunning() returns (isRunning: bool, accessed: int)
      ensures isRunning == running && accessed == lastAccess
    {
      isRunning, accessed := running, lastAccess;
    }

    method SetTimedout()
      modifies this
      ensures Now() == old(Now()).(timedout := true) && log == old(log)
    {
      timedout := true;
    }

    method SetTimeToLive(seconds: int)
      modifies this
      ensures Now() == old(Now()).(timeToLive := seconds) && log == old(log)
    {
      timeToLive := seconds;
    }

    method CleanedUp()
      modifies this
      ensures Now() == old(Now()) && log == Then(old(log), CleanUp)
    {
      log := Then(log, CleanUp);
    }

    method Referenced(added: bool)
      modifies this
      ensures Now() == old(Now()) && log == Then(old(log), if added then AddRef else RemoveRef)
    {
      log := Then(log, if added then AddRef else RemoveRef);
    }
  }

  // ------------------------------------------------------------------------ what a pass does

  ghost predicate Distinct(objs: seq<ReaperBase>) {
    forall i, j | 0 <= i < j < |objs| :: objs[i] != objs[j]
  }

  /** An object at one moment. */
  datatype Snap = Snap(use: Use, log: Log)

  ghost function Look(objs: seq<ReaperBase>): (snaps: seq<Snap>)
    reads objs
    ensures |snaps| == |objs|
  {
    seq(|objs|, i requires 0 <= i < |objs| reads objs => Snap(objs[i].Now(), objs[i].log))
  }

  /** Of the first n objects, with the use made of each, those a pass at time `now` keeps. */
  ghost function Survivors(objs: seq<ReaperBase>, was: seq<Snap>, now: int, n: nat): seq<ReaperBase>
    requires n <= |objs| == |was|
  {
    if n == 0 then []
    else if was[n - 1].use.Kept(now) then Survivors(objs, was, now, n - 1) + [objs[n - 1]]
    else Survivors(objs, was, now, n - 1)
  }

  /** A client that has not come back is let go like one that has left; the object is not yet removed. */
  function TimedOut(s: Snap): Snap {
    Snap(s.use.(active := false, timedout := true), Then(Then(s.log, PoaDeactivate), RemoveRef))
  }

  /** A removed object is cleaned up once and, last, the list drops its reference. */
  function Collected(s: Snap): Snap {
    s.(log := Then(Then(s.log, CleanUp), RemoveRef))
  }

  /** What a pass at time `now` makes of an object. */
  function AfterPass(s: Snap, now: int): Snap {
    if s.use.Kept(now) then s else if s.use.active then Collected(TimedOut(s)) else Collected(s)
  }

  class ServiceApp {
    var reaperObjList: seq<ReaperBase>

    constructor ()
      ensures reaperObjList == []
    {
      reaperObjList := [];
    }

    ghost predicate Valid()
      reads this
    {
      Distinct(reaperObjList)
    }

    method AddReaperObj(rb: ReaperBase)
      requires Valid() && rb !in reaperObjList
      modifies this, rb
      ensures Valid() && reaperObjList == old(reaperObjList) + [rb]
      ensures rb.Now() == old(rb.Now()) && rb.log == Then(old(rb.log), AddRef)
    {
      rb.Referenced(true);
      reaperObjList := reaperObjList + [rb];
    }

    /** Takes rb off the list and drops the list's reference; an object that is not listed is left alone. */
    method RemoveReaperObj(rb: ReaperBase)
      requires Valid()
      modifies this, rb
      ensures Valid() && rb !in reaperObjList
      ensures rb !in old(reaperObjList) ==> reaperObjList == old(reaperObjList) && rb.log == old(rb.log)
      ensures rb in old(reaperObjList) ==>
                && rb.log == Then(old(rb.log), RemoveRef)
                && exists i | 0 <= i < |old(reaperObjList)| ::
                     && old(reaperObjList)[i] == rb
                     && reaperObjList == old(reaperObjList)[..i] + old(reaperObjList)[i + 1..]
      ensures rb.Now() == old(rb.Now())
    {
      var it := 0;
      while it != |reaperObjList|
        invariant 0 <= it <= |reaperObjList| && reaperObjList == old(reaperObjList)
        invariant rb !in reaperObjList[..it]
        invariant rb.Now() == old(rb.Now()) && rb.log == old(rb.log)
      {
        if reaperObjList[it] == rb {
          reaperObjList := reaperObjList[..it] + reaperObjList[it + 1..];
          rb.Referenced(false);
          return;
        }
        it := it + 1;
      }
    }

    /** One pass. It stops although the timeout branch does not step the iterator: the object it leaves it
        at is no longer active. */
    method CleanUpReaperObj(now: int)
      requires Valid()
      modifies this, reaperObjList
      ensures Valid()
      ensures reaperObjList == Survivors(old(reaperObjList), old(Look(reaperObjList)), now, |old(reaperObjList)|)
      ensures forall i | 0 <= i < |old(reaperObjList)| ::
                Look(old(reaperObjList))[i] == AfterPass(old(Look(reaperObjList))[i], now)
    {
      ghost var objs, was := reaperObjList, Look(reaperObjList);
      ghost var done: nat := 0;
      var it: nat := 0;
      while it != |reaperObjList|
        invariant it <= |reaperObjList| && done <= |objs|
        invariant Cursor(reaperObjList, it, objs, was, now, done)
        invariant Progress(was, Look(objs), now, done)
        decreases |objs| - done, it < |reaperObjList| && reaperObjList[it].active
      {
        CursorObject(reaperObjList, it, objs, was, now, done);
        it := Visit(it, now, objs, was, done);
        done := if |reaperObjList| - it == |objs| - done then done else done + 1;
      }
      CursorAtEnd(reaperObjList, it, objs, was, now, done);
      SurvivorsDistinct(objs, was, now, |objs|);
    }

    /** The body of the loop: the object at `it` is removed, or timed out and visited again, or kept. */
    method Visit(it: nat, now: int, ghost objs: seq<ReaperBase>, ghost was: seq<Snap>, ghost done: nat)
      returns (next: nat)
      requires it < |reaperObjList| && done < |objs| == |was|
      requires Distinct(objs) && reaperObjList[it] == objs[done]
      requires Cursor(reaperObjList, it, objs, was, now, done)
      requires Progress(was, Look(objs), now, done)
      modifies this, reaperObjList[it]
      ensures next <= |reaperObjList|
      ensures |reaperObjList| - next == |objs| - done ==>
                && next < |reaperObjList| && reaperObjList == old(reaperObjList) && next == it
                && old(objs[done].active) && !objs[done].active
                && Progress(was, Look(objs), now, done)
      ensures |reaperObjList| - next != |objs| - done ==>
                && Cursor(reaperObjList, next, objs, was, now, done + 1)
                && Progress(was, Look(objs), now, done + 1)
    {
      CursorObject(reaperObjList, it, objs, was, now, done);
      var o := reaperObjList[it];
      ghost var seen := Look(objs);
      next := it;
      if !o.active {
        CursorDrops(reaperObjList, it, objs, was, now, done);
        reaperObjList := reaperObjList[..it] + reaperObjList[it + 1..];
        o.CleanedUp();
        o.Referenced(false);
        assert Look(objs) == seen[done := Collected(seen[done])];
      } else {
        var running, lastAccess := o.IsRunning();
        if !running && now - lastAccess >= o.timeToLive {
          o.Deactivate();
          o.SetTimedout();
          assert Look(objs) == seen[done := TimedOut(seen[done])];
        } else {
          next := it + 1;
          CursorKeeps(reaperObjList, it, objs, was, now, done);
        }
      }
    }
  }

  // ------------------------------------------------------------------------ the state of a pass

  /** `done` objects have been dealt with: before the iterator are those of them that are kept, from it on
      are the objects still to come. */
  ghost predicate Cursor(list: seq<ReaperBase>, it: nat, objs: seq<ReaperBase>, was: seq<Snap>, now: int, done: nat)
  {
    && it <= |list| && done <= |objs| == |was|
    && list[..it] == Survivors(objs, was, now, done)
    && list[it..] == objs[done..]
  }

  /** The objects still to come are as the pass found them, but the next may have been timed out. */
  ghost predicate Progress(was: seq<Snap>, seen: seq<Snap>, now: int, done: nat)
  {
    && done <= |seen| == |was|
    && (forall i | 0 <= i < done :: seen[i] == AfterPass(was[i], now))
    && (forall i | done < i < |was| :: seen[i] == was[i])
    && (done < |was| ==> seen[done] == was[done]
                         || (was[done].use.active && was[done].use.Expired(now) && seen[done] == TimedOut(was[done])))
  }

  lemma {:induction false} CursorObject(list: seq<ReaperBase>, it: nat, objs: seq<ReaperBase>, was: seq<Snap>,
                                        now: int, done: nat)
    requires Cursor(list, it, objs, was, now, done) && it < |list|
    ensures done < |objs| && list[it] == objs[done] && |list| - it == |objs| - done
  {
    assert list[it..][0] == list[it];
  }

  lemma {:induction false} CursorAtEnd(list: seq<ReaperBase>, it: nat, objs: seq<ReaperBase>, was: seq<Snap>,
                                       now: int, done: nat)
    requires Cursor(list, it, objs, was, now, done) && it == |list|
    ensures done == |objs| && list == Survivors(objs, was, now, |objs|)
  {
    assert list[..it] == list && |list[it..]| == 0;
  }

  lemma {:induction false} CursorDrops(list: seq<ReaperBase>, it: nat, objs: seq<ReaperBase>, was: seq<Snap>,
                                       now: int, done: nat)
    requires Cursor(list, it, objs, was, now, done) && it < |list| && done < |objs| && !was[done].use.Kept(now)
    ensures Cursor(list[..it] + list[it + 1..], it, objs, was, now, done + 1)
    ensures |list| - it == |objs| - done
  {
    assert objs[done + 1..] == objs[done..][1..] && list[it + 1..] == list[it..][1..];
    var shorter := list[..it] + list[it + 1..];
    assert shorter[..it] == list[..it] && shorter[it..] == list[it + 1..];
  }

  lemma {:induction false} CursorKeeps(list: seq<ReaperBase>, it: nat, objs: seq<ReaperBase>, was: seq<Snap>,
                                       now: int, done: nat)
    requires Cursor(list, it, objs, was, now, done) && it < |list| && done < |objs| && was[done].use.Kept(now)
    ensures Cursor(list, it + 1, objs, was, now, done + 1)
    ensures |list| - it == |objs| - done
  {
    assert objs[done + 1..] == objs[done..][1..] && list[it + 1..] == list[it..][1..];
    assert list[it] == list[it..][0];
    assert list[..it + 1] == list[..it] + [objs[done]];
  }

  // ---------------------------------------------------------------- what follows for the objects

  /** The list stays free of duplicates. */
  lemma {:induction false} SurvivorsDistinct(objs: seq<ReaperBase>, was: seq<Snap>, now: int, n: nat)
    requires n <= |objs| == |was| && Distinct(objs)
    ensures Distinct(Survivors(objs, was, now, n))
  {
    if n > 0 {
      SurvivorsDistinct(objs, was, now, n - 1);
      SurvivorsExactly(objs, was, now, n - 1);
    }
  }

  /** Exactly the objects that are active and either running or used within their time to live stay. */
  lemma {:induction false} SurvivorsExactly(objs: seq<ReaperBase>, was: seq<Snap>, now: int, n: nat)
    requires n <= |objs| == |was| && Distinct(objs)
    ensures forall i | 0 <= i < |objs| ::
              objs[i] in Survivors(objs, was, now, n) <==>
              i < n && was[i].use.active && (was[i].use.running || now - was[i].use.lastAccess < was[i].use.timeToLive)
    ensures forall o | o in Survivors(objs, was, now, n) :: o in objs
  {
    if n > 0 {
      SurvivorsExactly(objs, was, now, n - 1);
    }
  }

  /** The use made of the survivors. */
  ghost function SnapsKept(was: seq<Snap>, now: int, n: nat): seq<Snap>
    requires n <= |was|
  {
    if n == 0 then []
    else if was[n - 1].use.Kept(now) then SnapsKept(was, now, n - 1) + [was[n - 1]]
    else SnapsKept(was, now, n - 1)
  }

  lemma {:induction false} SnapsKeptLength(objs: seq<ReaperBase>, was: seq<Snap>, now: int, n: nat)
    requires n <= |objs| == |was|
    ensures |SnapsKept(was, now, n)| == |Survivors(objs, was, now, n)|
  {
    if n > 0 {
      SnapsKeptLength(objs, was, now, n - 1);
    }
  }

  /** When nobody uses the objects in between, an earlier pass makes no difference to a later one: what is
      collected depends on the last pass alone, and a pass repeated at once collects nothing more. */
  lemma {:induction false} EarlierPassInvisible(objs: seq<ReaperBase>, was: seq<Snap>, earlier: int, now: int, n: nat)
    requires n <= |objs| == |was| && earlier <= now
    ensures |SnapsKept(was, earlier, n)| == |Survivors(objs, was, earlier, n)|
    ensures var kept := Survivors(objs, was, earlier, n);
            Survivors(kept, SnapsKept(was, earlier, n), now, |kept|) == Survivors(objs, was, now, n)
  {
    SnapsKeptLength(objs, was, earlier, n);
    if n > 0 {
      EarlierPassInvisible(objs, was, earlier, now, n - 1);
      var kept, keptWas := Survivors(objs, was, earlier, n - 1), SnapsKept(was, earlier, n - 1);
      SnapsKeptLength(objs, was, earlier, n - 1);
      if was[n - 1].use.Kept(earlier) {
        SurvivorsPrefix(kept, keptWas, kept + [objs[n - 1]], keptWas + [was[n - 1]], now, |kept|);
      }
    }
  }

  lemma {:induction false} SurvivorsPrefix(objs: seq<ReaperBase>, was: seq<Snap>, more: seq<ReaperBase>,
                                           moreWas: seq<Snap>, now: int, n: nat)
    requires n <= |objs| == |was| && n <= |more| == |moreWas|
    requires forall i | 0 <= i < n :: objs[i] == more[i] && was[i] == moreWas[i]
    ensures Survivors(objs, was, now, n) == Survivors(more, moreWas, now, n)
  {
    if n > 0 {
      SurvivorsPrefix(objs, was, more, moreWas, now, n - 1);
    }
  }
}
